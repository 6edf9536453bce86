/**
  The B+ tree cursor (bitree/bdb/cursor.go): a stack of places from the root down to a leaf. Trees are
  values here; a leaf may be empty, as deletes leave it until the next commit.
 */
module TreeCursor {
  import opened Common

  /** seps[i] is the key a branch page keeps for its i-th child. */
  datatype Tree = Leaf(keys: seq<int>) | Branch(seps: seq<int>, kids: seq<Tree>)

  ghost function Keys(t: Tree): seq<int> {
    match t
    case Leaf(keys) => keys
    case Branch(_, kids) => All(kids)
  }

  ghost function All(kids: seq<Tree>): seq<int> {
    if kids == [] then [] else Keys(kids[0]) + All(kids[1..])
  }

  predicate Ascending(s: seq<int>) {
    forall i, j :: 0 <= i < j < |s| ==> s[i] < s[j]
  }

  /** Every child's keys lie between its separator and the next; the first child's have no lower bound. */
  ghost predicate Wf(t: Tree) {
    match t
    case Leaf(keys) => Ascending(keys)
    case Branch(seps, kids) =>
      && 0 < |kids| == |seps| && Ascending(seps)
      && (forall i :: 0 <= i < |kids| ==> Wf(kids[i]))
      && (forall i :: 0 < i < |kids| ==> AtLeast(Keys(kids[i]), seps[i]))
      && (forall i :: 0 <= i < |kids| - 1 ==> Under(Keys(kids[i]), seps[i + 1]))
  }

  ghost predicate AtLeast(s: seq<int>, k: int) { forall i :: 0 <= i < |s| ==> k <= s[i] }
  ghost predicate Under(s: seq<int>, k: int) { forall i :: 0 <= i < |s| ==> s[i] < k }

  /** A page on the way and the element taken there. */
  datatype Ref = Ref(tree: Tree, index: nat)

  function Count(t: Tree): nat { if t.Leaf? then |t.keys| else |t.kids| }

  /** The keys of one page from its n-th element on. */
  ghost function From(t: Tree, n: nat): seq<int> {
    if n >= Count(t) then [] else match t case Leaf(keys) => keys[n..] case Branch(_, kids) => All(kids[n..])
  }

  /** All keys behind the place the stack stands at. */
  ghost function Later(stack: seq<Ref>): seq<int> {
    if stack == [] then [] else var top := stack[|stack| - 1]; From(top.tree, top.index + 1) + Later(stack[..|stack| - 1])
  }

  /** The same with the place itself. */
  ghost function Here(stack: seq<Ref>): seq<int>
    requires stack != []
  {
    var top := stack[|stack| - 1];
    From(top.tree, top.index) + Later(stack[..|stack| - 1])
  }

  /** Each page hangs at the element taken on the page before. */
  ghost predicate Path(stack: seq<Ref>) {
    && (forall i :: 0 <= i < |stack| ==> Wf(stack[i].tree))
    && (forall i :: 0 <= i < |stack| - 1 ==> stack[i].tree.Branch? && stack[i].index < |stack[i].tree.kids| && stack[i + 1].tree == stack[i].tree.kids[stack[i].index])
    && (stack != [] && stack[|stack| - 1].tree.Branch? ==> stack[|stack| - 1].index < |stack[|stack| - 1].tree.kids|)
  }

  lemma {:induction false} AllSplits(kids: seq<Tree>, n: nat)
    requires n < |kids|
    ensures All(kids[n..]) == Keys(kids[n]) + All(kids[n + 1..])
    ensures AllLeaves(kids[n..]) == Leaves(kids[n]) + AllLeaves(kids[n + 1..])
  {
    var s := kids[n..];
    assert s[0] == kids[n] && s[1..] == kids[n + 1..];
  }

  lemma {:induction false} FromSplits(t: Tree, n: nat)
    requires t.Branch? && n < |t.kids|
    ensures From(t, n) == Keys(t.kids[n]) + From(t, n + 1)
    ensures LeavesFrom(t, n) == Leaves(t.kids[n]) + LeavesFrom(t, n + 1)
  {
    AllSplits(t.kids, n);
    assert n + 1 == |t.kids| ==> t.kids[n + 1..] == [];
  }

  lemma {:induction false} FromStart(t: Tree)
    requires Wf(t)
    ensures From(t, 0) == Keys(t) && LeavesAt(t, 0) == Leaves(t)
  {
    if t.Branch? {
      assert t.kids[0..] == t.kids;
    }
  }

  /** How many leaves lie below a page, and behind a place. */
  ghost function Leaves(t: Tree): nat {
    match t
    case Leaf(_) => 1
    case Branch(_, kids) => AllLeaves(kids)
  }

  ghost function AllLeaves(kids: seq<Tree>): nat {
    if kids == [] then 0 else Leaves(kids[0]) + AllLeaves(kids[1..])
  }

  ghost function LeavesFrom(t: Tree, n: nat): nat {
    if t.Leaf? || n >= |t.kids| then 0 else AllLeaves(t.kids[n..])
  }

  ghost function LeavesAt(t: Tree, n: nat): nat {
    if t.Leaf? then 1 else LeavesFrom(t, n)
  }

  ghost function LeavesLater(stack: seq<Ref>): nat {
    if stack == [] then 0 else var top := stack[|stack| - 1]; LeavesFrom(top.tree, top.index + 1) + LeavesLater(stack[..|stack| - 1])
  }

  ghost function LeavesHere(stack: seq<Ref>): nat
    requires stack != []
  {
    var top := stack[|stack| - 1];
    LeavesAt(top.tree, top.index) + LeavesLater(stack[..|stack| - 1])
  }

  lemma {:induction false} KidWf(t: Tree, i: nat)
    requires Wf(t) && t.Branch? && i < |t.kids|
    ensures Wf(t.kids[i])
  {
  }

  lemma {:induction false} PushPath(stack: seq<Ref>, r: Ref)
    requires stack != [] && Path(stack) && stack[|stack| - 1].tree.Branch?
    requires r.tree == stack[|stack| - 1].tree.kids[stack[|stack| - 1].index] && (r.tree.Branch? ==> r.index < |r.tree.kids|)
    ensures Path(stack + [r]) && Later((stack + [r])[..|stack|]) == Later(stack) && LeavesLater((stack + [r])[..|stack|]) == LeavesLater(stack)
  {
    hide Wf;
    assert (stack + [r])[..|stack|] == stack;
    KidWf(stack[|stack| - 1].tree, stack[|stack| - 1].index);
  }

  /** Going down to a child's first element stays at the same place. */
  lemma {:induction false} Down(stack: seq<Ref>)
    requires stack != [] && Path(stack) && stack[|stack| - 1].tree.Branch?
    ensures var top := stack[|stack| - 1]; var stack' := stack + [Ref(top.tree.kids[top.index], 0)];
      Path(stack') && Here(stack') == Here(stack) && LeavesHere(stack') == LeavesHere(stack)
  {
    var n := |stack| - 1;
    var top := stack[n];
    var kid := top.tree.kids[top.index];
    KidWf(top.tree, top.index);
    FromStart(kid);
    PushPath(stack, Ref(kid, 0));
    DownHere(stack, kid);
  }

  lemma {:induction false} DownHere(stack: seq<Ref>, kid: Tree)
    requires stack != [] && stack[|stack| - 1].tree.Branch? && stack[|stack| - 1].index < |stack[|stack| - 1].tree.kids|
    requires kid == stack[|stack| - 1].tree.kids[stack[|stack| - 1].index]
    ensures Here(stack) == Keys(kid) + Later(stack) && LeavesHere(stack) == Leaves(kid) + LeavesLater(stack)
  {
    var n := |stack| - 1;
    var top := stack[n];
    FromSplits(top.tree, top.index);
    Assoc(Keys(kid), From(top.tree, top.index + 1), Later(stack[..n]));
  }

  lemma Assoc(a: seq<int>, b: seq<int>, c: seq<int>)
    ensures (a + b) + c == a + (b + c)
  {
  }

  /** sort.Search for the first key not below k; exact: a probe met k itself. */
  method Find(keys: seq<int>, k: int) returns (index: nat, exact: bool)
    requires Ascending(keys)
    ensures index <= |keys| && Under(keys[..index], k) && AtLeast(keys[index..], k)
    ensures exact <==> index < |keys| && keys[index] == k
  {
    var i, j := 0, |keys|;
    exact := false;
    while i < j
      invariant 0 <= i <= j <= |keys| && Under(keys[..i], k) && AtLeast(keys[j..], k)
      invariant exact <==> j < |keys| && keys[j] == k
    {
      var h := (i + j) / 2;
      if keys[h] == k {
        exact := true;
      }
      if keys[h] < k {
        Lower(keys, h, k);
        i := h + 1;
      } else {
        Upper(keys, h, k);
        j := h;
      }
    }
    index := i;
  }

  lemma Lower(keys: seq<int>, h: nat, k: int)
    requires Ascending(keys) && h < |keys| && keys[h] < k
    ensures Under(keys[..h + 1], k)
  {
  }

  lemma Upper(keys: seq<int>, h: nat, k: int)
    requires Ascending(keys) && h < |keys| && k <= keys[h]
    ensures AtLeast(keys[h..], k) && (forall j :: h < j < |keys| ==> k < keys[j])
  {
  }

  class Cursor {
    const root: Tree
    var stack: seq<Ref>

    constructor (root: Tree)
      requires Wf(root)
      ensures this.root == root && stack == []
    {
      this.root, stack := root, [];
    }

    /** The stack leads to a leaf. */
    ghost predicate Placed()
      reads this
    {
      stack != [] && Path(stack) && stack[|stack| - 1].tree.Leaf?
    }

    /** first(): down to the first leaf below the element on top. */
    method Descend()
      requires stack != [] && Path(stack)
      modifies this`stack
      ensures Placed() && Here(stack) == old(Here(stack)) && LeavesHere(stack) == old(LeavesHere(stack))
      ensures old(stack[|stack| - 1].tree.Branch?) ==> stack[|stack| - 1].index == 0
      ensures old(stack[|stack| - 1].tree.Leaf?) ==> stack == old(stack)
    {
      ghost var here, leaves := Here(stack), LeavesHere(stack);
      while stack[|stack| - 1].tree.Branch?
        invariant stack != [] && Path(stack) && Here(stack) == here && LeavesHere(stack) == leaves
        invariant stack == old(stack) || (stack[|stack| - 1].index == 0 && old(stack[|stack| - 1].tree.Branch?))
        decreases stack[|stack| - 1].tree
        modifies this`stack
      {
        DescendOne();
      }
    }

    method DescendOne()
      requires stack != [] && Path(stack) && stack[|stack| - 1].tree.Branch?
      modifies this`stack
      ensures stack != [] && Path(stack) && Here(stack) == old(Here(stack)) && LeavesHere(stack) == old(LeavesHere(stack))
      ensures stack[|stack| - 1].index == 0 && stack[|stack| - 1].tree < old(stack[|stack| - 1].tree)
    {
      Down(stack);
      var top := stack[|stack| - 1];
      stack := stack + [Ref(top.tree.kids[top.index], 0)];
    }

    /** keyValue() */
    method Current() returns (r: Option<int>)
      requires Placed()
      ensures r == Shown()
    {
      var top := stack[|stack| - 1];
      r := if top.index >= |top.tree.keys| then None else Some(top.tree.keys[top.index]);
    }

    ghost function Shown(): Option<int>
      requires Placed()
      reads this
    {
      var top := stack[|stack| - 1];
      if top.index >= |top.tree.keys| then None else Some(top.tree.keys[top.index])
    }

    /** next(): on to the next leaf element, over empty leaves. */
    method Advance() returns (r: Option<int>)
      requires Placed()
      modifies this`stack
      ensures Placed() && Steps(old(Later(stack)), r) && (r == None ==> stack == old(stack) || Shown() == None)
    {
      ghost var later := Later(stack);
      var done := false;
      r := None;
      while !done
        invariant Placed() && (!done ==> Later(stack) == later && r == None) && (r == None ==> stack == old(stack) || Shown() == None)
        invariant done ==> Steps(later, r)
        decreases !done, LeavesHere(stack)
        modifies this`stack
      {
        done, r := TryLeaf();
      }
    }

    /** One round: the next element, the end, or an empty leaf. */
    method TryLeaf() returns (done: bool, r: Option<int>)
      requires Placed()
      modifies this`stack
      ensures Placed() && (done ==> Steps(old(Later(stack)), r))
      ensures !done ==> Later(stack) == old(Later(stack)) && LeavesHere(stack) < old(LeavesHere(stack)) && r == None && Shown() == None
      ensures done && r == None ==> stack == old(stack)
    {
      var i := Climb();
      done, r := true, None;
      if i == -1 {
        LaterUpTo(stack, 0);
      } else {
        done, r := OnFrom(i);
      }
    }

    /** On at one page, and down to the leaf below. */
    method OnFrom(i: nat) returns (done: bool, r: Option<int>)
      requires Placed() && i < |stack| && stack[i].index + 1 < Count(stack[i].tree)
      requires forall j :: i < j < |stack| ==> Count(stack[j].tree) <= stack[j].index + 1
      modifies this`stack
      ensures Placed() && (done ==> Steps(old(Later(stack)), r) && r.Some?)
      ensures !done ==> Later(stack) == old(Later(stack)) && LeavesHere(stack) < old(LeavesHere(stack)) && r == None && Shown() == None
    {
      done, r := true, None;
      Onto(i);
      if |stack[|stack| - 1].tree.keys| > 0 {
        TopKey(stack);
        r := Current();
      } else {
        EmptyTop(stack);
        done := false;
      }
    }

    method Onto(i: nat)
      requires Placed() && i < |stack| && stack[i].index + 1 < Count(stack[i].tree)
      requires forall j :: i < j < |stack| ==> Count(stack[j].tree) <= stack[j].index + 1
      modifies this`stack
      ensures Placed() && Here(stack) == old(Later(stack))
      ensures var top := stack[|stack| - 1]; if top.tree.keys == [] then LeavesHere(stack) < old(LeavesHere(stack)) else top.index < |top.tree.keys|
    {
      Forward(i);
      Descend();
    }

    ghost predicate Steps(later: seq<int>, r: Option<int>)
      requires Placed()
      reads this
    {
      if later == [] then r == None && Later(stack) == [] else r == Some(later[0]) && Later(stack) == later[1..] && Shown() == r
    }

    /** The lowest page with an element left, or -1. */
    method Climb() returns (i: int)
      requires Placed()
      ensures -1 <= i < |stack|
      ensures 0 <= i ==> stack[i].index + 1 < Count(stack[i].tree)
      ensures forall j :: i < j < |stack| ==> Count(stack[j].tree) <= stack[j].index + 1
    {
      i := |stack| - 1;
      while i >= 0 && Count(stack[i].tree) <= stack[i].index + 1
        invariant -1 <= i < |stack|
        invariant forall j :: i < j < |stack| ==> Count(stack[j].tree) <= stack[j].index + 1
      {
        i := i - 1;
      }
    }

    method Forward(i: nat)
      requires Placed() && i < |stack| && stack[i].index + 1 < Count(stack[i].tree)
      requires forall j :: i < j < |stack| ==> Count(stack[j].tree) <= stack[j].index + 1
      modifies this`stack
      ensures stack != [] && Path(stack) && Here(stack) == old(Later(stack))
      ensures stack[|stack| - 1].tree.Branch? ==> LeavesHere(stack) < old(LeavesHere(stack))
      ensures stack[|stack| - 1].tree.Leaf? ==> stack[|stack| - 1].index < |stack[|stack| - 1].tree.keys|
    {
      var moved := stack[..i] + [Ref(stack[i].tree, stack[i].index + 1)];
      ForwardPath(stack, i);
      ForwardTo(stack, i, moved);
      stack := moved;
    }

    method First() returns (r: Option<int>)
      requires Wf(root)
      modifies this`stack
      ensures Placed() && Starts(Keys(root), r)
    {
      stack := [Ref(root, 0)];
      StartPath(root);
      Descend();
      r := FirstOn(Keys(root));
    }

    /** If the first leaf is empty, the next one has the answer. */
    method FirstOn(ghost keys: seq<int>) returns (r: Option<int>)
      requires Placed() && Here(stack) == keys && stack[|stack| - 1].index == 0
      modifies this`stack
      ensures Placed() && Starts(keys, r)
    {
      if |stack[|stack| - 1].tree.keys| == 0 {
        EmptyTop(stack);
        NextLeaf(keys);
      } else {
        TopKey(stack);
      }
      r := Current();
    }

    method NextLeaf(ghost keys: seq<int>)
      requires Placed() && Later(stack) == keys && Shown() == None
      modifies this`stack
      ensures Placed() && Starts(keys, Shown())
    {
      var r := Advance();
      assert keys != [] ==> keys == [keys[0]] + keys[1..];
    }

    method Next() returns (r: Option<int>)
      requires Placed()
      modifies this`stack
      ensures Placed() && Steps(old(Later(stack)), r)
    {
      r := Advance();
    }

    /** First, then Next until there is no more: the keys of the tree, each once and in order. */
    method Enumerate() returns (keys: seq<int>)
      requires Wf(root)
      modifies this`stack
      ensures keys == Keys(root)
    {
      hide Path, Later, Here;
      keys := [];
      var r := FirstLeft();
      ghost var left := Keys(root);
      while r.Some?
        invariant Placed() && Left(r) == left && keys + left == Keys(root)
        decreases |left|
      {
        keys := keys + [r.value];
        left := left[1..];
        r := NextLeft(r, left);
      }
    }

    method FirstLeft() returns (r: Option<int>)
      requires Wf(root)
      modifies this`stack
      ensures Placed() && Left(r) == Keys(root)
    {
      r := First();
    }

    /** The key shown and those to come. */
    ghost function Left(r: Option<int>): seq<int>
      requires Placed()
      reads this
    {
      if r == None then [] else [r.value] + Later(stack)
    }

    method NextLeft(r: Option<int>, ghost left: seq<int>) returns (next: Option<int>)
      requires Placed() && r.Some? && Left(r)[1..] == left
      modifies this`stack
      ensures Placed() && Left(next) == left
    {
      ghost var later := Later(stack);
      assert left == later;
      next := Next();
      assert later != [] ==> [later[0]] + later[1..] == later;
    }

    ghost predicate Starts(keys: seq<int>, r: Option<int>)
      requires Placed()
      reads this
    {
      keys == (if r == None then [] else [r.value]) + Later(stack) && (r == None ==> Later(stack) == [])
    }

    /** The keys of t below k, and from k on, end up on the two sides of the stack's place. */
    method Search(k: int, t: Tree) returns (ghost before: seq<int>, ghost here: seq<int>)
      requires Wf(t) && Path(stack) && (stack != [] ==> Below(stack, t))
      modifies this`stack
      ensures Placed() && Here(stack) == here + old(Later(stack))
      ensures Keys(t) == before + here && Under(before, k) && AtLeast(here, k)
      decreases t, 1
    {
      if t.Leaf? {
        before, here := SearchLeaf(k, t);
      } else {
        before, here := SearchNode(k, t);
      }
    }

    /** nsearch */
    method SearchLeaf(k: int, t: Tree) returns (ghost before: seq<int>, ghost here: seq<int>)
      requires Wf(t) && t.Leaf? && Path(stack) && (stack != [] ==> Below(stack, t))
      modifies this`stack
      ensures Placed() && Here(stack) == here + old(Later(stack))
      ensures Keys(t) == before + here && Under(before, k) && AtLeast(here, k)
    {
      var index, exact := Find(t.keys, k);
      PushLater(stack, Ref(t, index));
      PushAny(stack, Ref(t, index));
      stack := stack + [Ref(t, index)];
      before, here := t.keys[..index], t.keys[index..];
    }

    /** searchNode and searchPage */
    method SearchNode(k: int, t: Tree) returns (ghost before: seq<int>, ghost here: seq<int>)
      requires Wf(t) && t.Branch? && Path(stack) && (stack != [] ==> Below(stack, t))
      modifies this`stack
      ensures Placed() && Here(stack) == here + old(Later(stack))
      ensures Keys(t) == before + here && Under(before, k) && AtLeast(here, k)
      decreases t, 0
    {
      hide Path, Later, Here;
      ghost var later := Later(stack);
      var index := FindChild(t, k);
      PushLater(stack, Ref(t, index));
      PushAny(stack, Ref(t, index));
      KidWf(t, index);
      stack := stack + [Ref(t, index)];
      ghost var b, h := Search(k, t.kids[index]);
      SearchSides(t, index, k, b, h);
      Assoc(h, From(t, index + 1), later);
      before, here := All(t.kids[..index]) + b, h + From(t, index + 1);
    }

    /** The smallest key not below k. */
    method Seek(k: int) returns (r: Option<int>, ghost before: seq<int>)
      requires Wf(root)
      modifies this`stack
      ensures Placed() && Keys(root) == before + (if r == None then [] else [r.value] + Later(stack))
      ensures Under(before, k) && (r.Some? ==> k <= r.value)
    {
      stack := [];
      ghost var here;
      before, here := Search(k, root);
      assert here + [] == here;
      r := SeekOn(here);
      assert here != [] ==> k <= here[0];
    }

    /** If the leaf had no key left, the next one has the answer. */
    method SeekOn(ghost here: seq<int>) returns (r: Option<int>)
      requires Placed() && Here(stack) == here
      modifies this`stack
      ensures Placed() && here == if r == None then [] else [r.value] + Later(stack)
    {
      r := Current();
      if stack[|stack| - 1].index >= |stack[|stack| - 1].tree.keys| {
        PastTop(stack);
        r := Advance();
      } else {
        TopKey(stack);
      }
    }
  }

  /** t hangs below the element on top. */
  ghost predicate Below(stack: seq<Ref>, t: Tree)
    requires stack != []
  {
    var top := stack[|stack| - 1];
    top.tree.Branch? && top.index < |top.tree.kids| && t == top.tree.kids[top.index]
  }

  lemma {:induction false} StartPath(t: Tree)
    requires Wf(t)
    ensures Path([Ref(t, 0)]) && Here([Ref(t, 0)]) == Keys(t)
  {
    FromStart(t);
    assert [Ref(t, 0)][..0] == [];
    assert Keys(t) + [] == Keys(t);
  }

  lemma {:induction false} PushAny(stack: seq<Ref>, r: Ref)
    requires Path(stack) && (stack != [] ==> Below(stack, r.tree)) && Wf(r.tree) && (r.tree.Branch? ==> r.index < |r.tree.kids|)
    ensures Path(stack + [r])
  {
    var stack' := stack + [r];
    assert forall i :: 0 <= i < |stack| ==> stack'[i] == stack[i];
  }

  lemma {:induction false} PushLater(stack: seq<Ref>, r: Ref)
    ensures var stack' := stack + [r];
      Later(stack') == From(r.tree, r.index + 1) + Later(stack) && Here(stack') == From(r.tree, r.index) + Later(stack)
  {
    assert (stack + [r])[..|stack|] == stack;
  }

  lemma Sides(s: seq<int>, n: nat, k: int)
    requires n <= |s| && Under(s[..n], k) && AtLeast(s[n..], k)
    ensures (forall j :: 0 <= j < n ==> s[j] < k) && (forall j :: n <= j < |s| ==> k <= s[j])
  {
    forall j | 0 <= j < n
      ensures s[j] < k
    {
      assert s[..n][j] == s[j];
    }
    forall j | n <= j < |s|
      ensures k <= s[j]
    {
      assert s[n..][j - n] == s[j];
    }
  }

  /** searchNode and searchPage: the child whose range holds k. */
  method FindChild(t: Tree, k: int) returns (index: nat)
    requires Wf(t) && t.Branch?
    ensures index < |t.kids| == |t.seps|
    ensures forall j :: 0 < j <= index ==> t.seps[j] <= k
    ensures forall j :: index < j < |t.seps| ==> k < t.seps[j]
  {
    index := ChildOf(t.seps, k);
  }

  method ChildOf(seps: seq<int>, k: int) returns (index: nat)
    requires Ascending(seps) && seps != []
    ensures index < |seps|
    ensures forall j :: 0 < j <= index ==> seps[j] <= k
    ensures forall j :: index < j < |seps| ==> k < seps[j]
  {
    var exact;
    index, exact := Find(seps, k);
    Sides(seps, index, k);
    assert forall j :: index < j < |seps| ==> seps[index] < seps[j];
    if !exact && index > 0 {
      index := index - 1;
    }
  }

  lemma {:induction false} PastTop(stack: seq<Ref>)
    requires stack != [] && stack[|stack| - 1].tree.Leaf? && stack[|stack| - 1].index >= |stack[|stack| - 1].tree.keys|
    ensures Here(stack) == Later(stack)
  {
  }

  /** Children before the one taken hold smaller keys only, those behind it greater ones only. */
  lemma {:induction false} SearchSides(t: Tree, index: nat, k: int, before: seq<int>, here: seq<int>)
    requires Wf(t) && t.Branch? && index < |t.kids| && Keys(t.kids[index]) == before + here && Under(before, k) && AtLeast(here, k)
    requires forall j :: 0 < j <= index ==> t.seps[j] <= k
    requires forall j :: index < j < |t.seps| ==> k <= t.seps[j]
    ensures Keys(t) == (All(t.kids[..index]) + before) + (here + From(t, index + 1))
    ensures Under(All(t.kids[..index]) + before, k) && AtLeast(here + From(t, index + 1), k)
  {
    forall j | 0 <= j < index
      ensures Under(Keys(t.kids[j]), k)
    {
      assert Under(Keys(t.kids[j]), t.seps[j + 1]);
    }
    AllUnder(t.kids[..index], k);
    forall j | index < j < |t.kids|
      ensures AtLeast(Keys(t.kids[j]), k)
    {
      assert AtLeast(Keys(t.kids[j]), t.seps[j]);
    }
    AllAtLeast(t.kids[index + 1..], k);
    AllConcat(t.kids, index);
    AllSplits(t.kids, index);
    assert From(t, index + 1) == All(t.kids[index + 1..]);
    FourParts(All(t.kids[..index]), before, here, All(t.kids[index + 1..]));
  }

  lemma FourParts(a: seq<int>, b: seq<int>, c: seq<int>, d: seq<int>)
    ensures a + ((b + c) + d) == (a + b) + (c + d)
  {
  }

  lemma {:induction false} AllConcat(kids: seq<Tree>, n: nat)
    requires n <= |kids|
    ensures All(kids) == All(kids[..n]) + All(kids[n..])
    decreases |kids|
  {
    if n > 0 {
      AllConcat(kids[1..], n - 1);
      assert kids[1..][..n - 1] == kids[..n][1..] && kids[1..][n - 1..] == kids[n..] && kids[..n][0] == kids[0];
      Assoc(Keys(kids[0]), All(kids[1..][..n - 1]), All(kids[n..]));
    } else {
      assert kids[0..] == kids && kids[..0] == [];
      assert [] + All(kids) == All(kids);
    }
  }

  lemma {:induction false} AllUnder(kids: seq<Tree>, k: int)
    requires forall j :: 0 <= j < |kids| ==> Under(Keys(kids[j]), k)
    ensures Under(All(kids), k)
    decreases |kids|
  {
    if kids != [] {
      AllUnder(kids[1..], k);
    }
  }

  lemma {:induction false} AllAtLeast(kids: seq<Tree>, k: int)
    requires forall j :: 0 <= j < |kids| ==> AtLeast(Keys(kids[j]), k)
    ensures AtLeast(All(kids), k)
    decreases |kids|
  {
    if kids != [] {
      AllAtLeast(kids[1..], k);
    }
  }

  lemma {:induction false} ForwardPath(stack: seq<Ref>, i: nat)
    requires Path(stack) && i < |stack| && stack[i].index + 1 < Count(stack[i].tree)
    ensures Path(stack[..i] + [Ref(stack[i].tree, stack[i].index + 1)])
  {
    var stack' := stack[..i] + [Ref(stack[i].tree, stack[i].index + 1)];
    assert forall j :: 0 <= j < i ==> stack'[j] == stack[j];
    assert stack'[i].tree == stack[i].tree;
  }

  lemma {:induction false} ForwardHere(stack: seq<Ref>, i: nat, s: seq<Ref>, s': seq<Ref>)
    requires i < |stack| && stack[|stack| - 1].tree.Leaf? && s == stack[..i + 1]
    requires s' == s[..i] + [Ref(s[i].tree, s[i].index + 1)] && s[i].index + 1 < Count(s[i].tree)
    requires forall j :: i < j < |stack| ==> Count(stack[j].tree) <= stack[j].index + 1
    ensures Here(s') == Later(stack) && (s[i].tree.Branch? ==> LeavesHere(s') < LeavesHere(stack))
  {
    LaterUpTo(stack, i + 1);
    ForwardOne(s, s', i);
    if s[i].tree.Branch? {
      LeavesBelow(stack, i);
    }
  }

  lemma {:induction false} ForwardTo(stack: seq<Ref>, i: nat, moved: seq<Ref>)
    requires i < |stack| && stack[|stack| - 1].tree.Leaf? && stack[i].index + 1 < Count(stack[i].tree)
    requires moved == stack[..i] + [Ref(stack[i].tree, stack[i].index + 1)]
    requires forall j :: i < j < |stack| ==> Count(stack[j].tree) <= stack[j].index + 1
    ensures Here(moved) == Later(stack) && moved[|moved| - 1] == Ref(stack[i].tree, stack[i].index + 1)
    ensures stack[i].tree.Branch? ==> LeavesHere(moved) < LeavesHere(stack)
  {
    var s := stack[..i + 1];
    assert s[..i] == stack[..i] && s[i] == stack[i];
    ForwardHere(stack, i, s, moved);
  }

  /** The leaf on top counts for one more than what comes later. */
  lemma {:induction false} LeavesBelow(stack: seq<Ref>, i: nat)
    requires i < |stack| - 1 && stack[|stack| - 1].tree.Leaf?
    requires forall j :: i < j < |stack| ==> Count(stack[j].tree) <= stack[j].index + 1
    ensures LeavesHere(stack) == 1 + LeavesLater(stack[..i + 1])
  {
    var n := |stack| - 1;
    LaterUpTo(stack[..n], i + 1);
    assert stack[..n][..i + 1] == stack[..i + 1];
  }

  lemma {:induction false} ForwardOne(s: seq<Ref>, s': seq<Ref>, i: nat)
    requires |s| == i + 1 && s' == s[..i] + [Ref(s[i].tree, s[i].index + 1)] && s[i].index + 1 < Count(s[i].tree)
    ensures Here(s') == Later(s) && (s[i].tree.Branch? ==> LeavesHere(s') == LeavesLater(s))
  {
    hide From, LeavesFrom;
    assert s'[..i] == s[..i];
  }

  lemma {:induction false} EmptyTop(stack: seq<Ref>)
    requires stack != [] && stack[|stack| - 1].tree.Leaf? && stack[|stack| - 1].tree.keys == []
    ensures Here(stack) == Later(stack)
  {
  }

  /** Pages with nothing left add nothing to what comes later. */
  lemma {:induction false} LaterUpTo(stack: seq<Ref>, i: nat)
    requires i <= |stack| && forall j :: i <= j < |stack| ==> Count(stack[j].tree) <= stack[j].index + 1
    ensures Later(stack) == Later(stack[..i]) && LeavesLater(stack) == LeavesLater(stack[..i])
    decreases |stack|
  {
    if i < |stack| {
      var n := |stack| - 1;
      var below := stack[..n];
      assert forall j :: i <= j < n ==> below[j] == stack[j];
      LaterUpTo(below, i);
      assert below[..i] == stack[..i];
      NothingLeft(stack);
    } else {
      assert stack[..i] == stack;
    }
  }

  lemma {:induction false} NothingLeft(stack: seq<Ref>)
    requires stack != [] && Count(stack[|stack| - 1].tree) <= stack[|stack| - 1].index + 1
    ensures Later(stack) == Later(stack[..|stack| - 1]) && LeavesLater(stack) == LeavesLater(stack[..|stack| - 1])
  {
  }

  lemma {:induction false} TopKey(stack: seq<Ref>)
    requires stack != [] && stack[|stack| - 1].tree.Leaf? && stack[|stack| - 1].index < |stack[|stack| - 1].tree.keys|
    ensures Here(stack) == [stack[|stack| - 1].tree.keys[stack[|stack| - 1].index]] + Later(stack)
  {
    var top := stack[|stack| - 1];
    LeafFrom(top.tree, top.index);
    Assoc([top.tree.keys[top.index]], From(top.tree, top.index + 1), Later(stack[..|stack| - 1]));
  }

  lemma {:induction false} LeafFrom(t: Tree, n: nat)
    requires t.Leaf? && n < |t.keys|
    ensures From(t, n) == [t.keys[n]] + From(t, n + 1)
  {
    assert t.keys[n..] == [t.keys[n]] + t.keys[n + 1..];
  }

  // ----- Order -----

  /** The keys of a well-formed tree are in order, so the cursor visits them ascending. */
  lemma {:induction false} KeysAscend(t: Tree)
    requires Wf(t)
    ensures Ascending(Keys(t))
  {
    if t.Branch? {
      AllAscend(t, 0);
      assert t.kids[0..] == t.kids;
    }
  }

  lemma {:induction false} AllAscend(t: Tree, n: nat)
    requires Wf(t) && t.Branch? && n <= |t.kids|
    ensures Ascending(All(t.kids[n..])) && (0 < n < |t.kids| ==> AtLeast(All(t.kids[n..]), t.seps[n]))
    decreases t, |t.kids| - n
  {
    if n < |t.kids| {
      KeysAscend(t.kids[n]);
      AllAscend(t, n + 1);
      AllSplits(t.kids, n);
      if n + 1 < |t.kids| {
        assert Under(Keys(t.kids[n]), t.seps[n + 1]);
        if 0 < n {
          assert AtLeast(Keys(t.kids[n]), t.seps[n]);
        }
      }
    }
  }
}
