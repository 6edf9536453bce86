/**
  Searching the skiplist (internal/arenaskl/skl.go): the loops that find where a key belongs, what an
  inserter with kept splices takes for a new key, and lookups that go on while others insert.
 */
module SkipSearch {
  import opened Common
  import opened SkipLevel
  import opened Skiplist

  ghost predicate Sorted(levels: seq<Level>, top: Node) {
    && |levels| == MAX_HEIGHT && Nested(levels)
    && (forall l :: 0 <= l < MAX_HEIGHT ==> Chain(levels[l].on, levels[l].next, top))
  }

  predicate Between(key: Node, top: Node) { Lt(HEAD, key) && Lt(key, top) }

  /** Neighbours of key on one level. */
  ghost predicate SpliceFor(lv: Level, prev: Node, key: Node, next: Node, found: bool) {
    && prev in lv.on && next in lv.on && Lt(prev, key) && Le(key, next) && prev in lv.next && lv.next[prev] == next
    && (found <==> key in lv.on) && (found ==> next == key)
  }

  /** The first node at or above key on one level, starting at a node below it. */
  method FindSpliceForLevel(lv: Level, top: Node, key: Node, start: Node) returns (prev: Node, next: Node, found: bool)
    requires Chain(lv.on, lv.next, top) && start in lv.on && Lt(start, key) && Lt(key, top)
    ensures SpliceFor(lv, prev, key, next, found) && Le(start, prev)
  {
    prev, found := start, false;
    next := lv.next[prev];
    while next != top && !Lt(key, next) && next != key
      invariant prev in lv.on && prev != top && next == lv.next[prev] && Lt(prev, key) && Le(start, prev)
      decreases |Above(lv.on, prev)|
    {
      AboveShrinks(lv.on, prev, next);
      prev := next;
      next := lv.next[prev];
    }
    found := next == key;
  }

  // ----- Is the key there already? -----

  /** A kept splice around the key. */
  ghost predicate Around(lv: Level, s: Splice, key: Node) {
    Kept(s) && s.prev.value in lv.on && s.next.value in lv.on && Lt(s.prev.value, key) && Le(key, s.next.value)
  }

  /** The kept splice of the lowest level is still tight and ends at the key itself. */
  predicate Blind(lv: Level, i: Inserter, height: nat, key: Node) {
    && i.height >= height && |i.spl| > 0 && Kept(i.spl[0])
    && i.spl[0].prev.value in lv.next && lv.next[i.spl[0].prev.value] == i.spl[0].next.value == key
  }

  predicate Tight(lv: Level, s: Splice) {
    Kept(s) && s.prev.value in lv.next && lv.next[s.prev.value] == s.next.value
  }

  /** The first loop of findSplice: from which level down, and from which node, to search. */
  method StartLevel(levels: seq<Level>, height: nat, top: Node, key: Node, i: Inserter) returns (level: nat, prev: Node)
    requires Sorted(levels, top) && 0 < height <= MAX_HEIGHT && Between(key, top)
    requires |i.spl| == MAX_HEIGHT && i.height == height && Tower(levels, i.spl, 0, height)
    ensures level <= height && (level == height ==> prev == HEAD)
    ensures level < height ==> Tight(levels[level], i.spl[level]) && prev == i.spl[level].prev.value && Around(levels[level], i.spl[level], key)
    ensures level > 0 ==> !Blind(levels[0], i, height, key)
  {
    level, prev := 0, HEAD;
    while level < height
      invariant 0 <= level <= height && prev == HEAD
      invariant level > 0 ==> !Tight(levels[0], i.spl[0])
    {
      assert SpliceOk(levels, i.spl, level);
      var s := i.spl[level];
      if levels[level].next[s.prev.value] == s.next.value {
        if (s.prev.value != HEAD && !Lt(s.prev.value, key)) || (s.next.value != top && Lt(s.next.value, key)) {
          return height, HEAD;
        }
        return level, s.prev.value;
      }
      level := level + 1;
    }
  }

  /** Splices above one that is around the key are around it too. */
  lemma AroundAbove(levels: seq<Level>, spl: seq<Splice>, key: Node, level: nat, h: nat)
    requires h <= |spl| == |levels| && level < h && Tower(levels, spl, 0, h) && Around(levels[level], spl[level], key)
    ensures forall l :: level <= l < h ==> Around(levels[l], spl[l], key)
  {
    forall l | level <= l < h
      ensures Around(levels[l], spl[l], key)
    {
      assert SpliceOk(levels, spl, l);
      assert level < l ==> Inside(spl[level], spl[l]);
    }
  }

  /**
    findSplice at one moment: it leaves splices around the key on every level, and finds a key that is in
    the list exactly if the inserter is not blind to it.
   */
  method FindSplice(levels: seq<Level>, height: nat, top: Node, key: Node, i: Inserter) returns (found: bool, r: Inserter)
    requires Sorted(levels, top) && 0 < height <= MAX_HEIGHT && Between(key, top)
    requires |i.spl| == MAX_HEIGHT && i.height <= height && Tower(levels, i.spl, 0, i.height)
    ensures found <==> key in levels[0].on && !Blind(levels[0], i, height, key)
    ensures |r.spl| == MAX_HEIGHT && r.height == height && forall l :: 0 <= l < height ==> Around(levels[l], r.spl[l], key)
  {
    var level, prev := height, HEAD;
    r, found := i.(height := height), false;
    if i.height == height {
      level, prev := StartLevel(levels, height, top, key, i);
    }
    if level < height {
      AroundAbove(levels, i.spl, key, level, height);
    }
    ghost var from := level;
    while level > 0
      invariant 0 <= level <= from && level <= height && |r.spl| == MAX_HEIGHT && r.height == height
      invariant forall l :: level <= l < height ==> Around(levels[l], r.spl[l], key)
      invariant Lt(prev, key) && (level < height ==> prev in levels[level].on) && (level == height ==> prev == HEAD)
      invariant level == 0 < from ==> (found <==> key in levels[0].on)
      invariant level == from ==> !found
    {
      assert level < height ==> levels[level].on <= levels[level - 1].on;
      assert Chain(levels[level - 1].on, levels[level - 1].next, top);
      level := level - 1;
      var next;
      prev, next, found := FindSpliceForLevel(levels[level], top, key, prev);
      r := r.(spl := r.spl[level := Splice(Some(prev), Some(next))]);
    }
    if from == 0 {
      assert Chain(levels[0].on, levels[0].next, top);
    }
  }

  lemma AtRest(s: State, t: Thread)
    requires Reachable(s) && t in s.ins && s.ins[t].pc.Idle?
    ensures Sorted(s.levels, s.top) && 0 < s.height <= MAX_HEIGHT && |s.ins[t].spl| == MAX_HEIGHT
    ensures s.ins[t].height <= s.height && Tower(s.levels, s.ins[t].spl, 0, s.ins[t].height)
  {
    ReachableHolds(s);
    ChainsHold(s);
    assert InserterOk(s.levels, s.height, s.top, s.ins[t]);
  }

  lemma ChainsHold(s: State)
    requires LevelsOk(s.levels, s.ins, s.top)
    ensures Sorted(s.levels, s.top)
  {
    forall l | 0 <= l < MAX_HEIGHT
      ensures Chain(s.levels[l].on, s.levels[l].next, s.top)
    {
      assert Inv(s.levels[l], LinksAt(s.ins, l), s.top);
    }
  }

  /** Adding again with an inserter that has been used: found if and only if it is not blind to the key. */
  method AddAgain(s: State, t: Thread, key: Node) returns (found: bool)
    requires Reachable(s) && t in s.ins && s.ins[t].pc.Idle? && Between(key, s.top)
    ensures |s.levels| == MAX_HEIGHT && (found <==> key in s.levels[0].on && !Blind(s.levels[0], s.ins[t], s.height, key))
  {
    AtRest(s, t);
    var r;
    found, r := FindSplice(s.levels, s.height, s.top, key, s.ins[t]);
  }

  /** Skiplist.Add takes a new inserter each time, which is never blind. */
  method AddFresh(s: State, key: Node) returns (found: bool)
    requires Reachable(s) && Between(key, s.top)
    ensures |s.levels| == MAX_HEIGHT && (found <==> key in s.levels[0].on)
  {
    ReachableHolds(s);
    ChainsHold(s);
    var r;
    found, r := FindSplice(s.levels, s.height, s.top, key, Inserter(seq(MAX_HEIGHT, k => Splice(None, None)), 0, Idle));
  }

  // ----- A run that leaves an inserter blind -----

  lemma {:induction false} Onwards(s: State, events: seq<Event>, e: Event)
    requires Possible(s, events) && Enabled(After(s, events), e)
    ensures Possible(s, events + [e]) && After(s, events + [e]) == Apply(After(s, events), e)
    decreases |events|
  {
    if events == [] {
      assert [] + [e] == [e] && [e][1..] == [];
    } else {
      Onwards(Apply(s, events[0]), events[1..], e);
      assert (events + [e])[1..] == events[1..] + [e];
    }
  }

  lemma TopStays(s: State, e: Event)
    requires Enabled(s, e)
    ensures Apply(s, e).top == s.top
  {
  }

  lemma Next(s: State, e: Event)
    requires Reachable(s) && Enabled(s, e)
    ensures Reachable(Apply(s, e))
  {
    var events: seq<Event> :| Lt(HEAD, s.top) && Possible(Empty(s.top), events) && s == After(Empty(s.top), events);
    Onwards(Empty(s.top), events, e);
    TopStays(s, e);
  }

  const T := Thread(0)

  /** One inserter, at work on the lowest level, where n follows p. */
  ghost predicate Alone(s: State, pc: Pc, p: Node, n: Node) {
    && Reachable(s) && |s.levels| == MAX_HEIGHT && s.height == 1 && T in s.ins && |s.ins[T].spl| == MAX_HEIGHT && s.ins[T].pc == pc
    && p in s.levels[0].next && s.levels[0].next[p] == n && n in s.levels[0].prev && s.levels[0].prev[n] == p
  }

  /** Its last steps: a node of height one is linked between p and n. */
  lemma LinkAlone(s: State, key: Node, p: Node, n: Node) returns (r: State)
    requires Alone(s, New(key), p, n) && p != key && key != n && s.ins[T].spl[0] == Splice(Some(p), Some(n))
    ensures Alone(r, Idle, key, n) && r.top == s.top && r.used == s.used && p in r.levels[0].next && r.levels[0].next[p] == key
    ensures key in r.levels[0].on && key in r.levels[0].prev && r.levels[0].prev[key] == p
    ensures r.ins[T].height == s.ins[T].height && r.ins[T].spl[0] == Splice(Some(key), Some(n))
  {
    var e := Run(T, 1);
    Next(s, e);
    var a := Apply(s, e);
    Next(a, e);
    var b := Apply(a, e);
    Next(b, e);
    var c := Apply(b, e);
    assert c.ins[T].pc.link.stage == Cas;
    r := SwapAlone(c, key, p, n);
  }

  lemma SwapAlone(s: State, key: Node, p: Node, n: Node) returns (r: State)
    requires Alone(s, Linking(1, 0, false, Link(key, p, n, Cas)), p, n) && p != key && key != n
    requires key in s.levels[0].next && s.levels[0].next[key] == n && key in s.levels[0].prev && s.levels[0].prev[key] == p
    requires s.ins[T].spl[0] == Splice(Some(p), Some(n))
    ensures Alone(r, Idle, key, n) && r.top == s.top && r.used == s.used && p in r.levels[0].next && r.levels[0].next[p] == key
    ensures key in r.levels[0].on && key in r.levels[0].prev && r.levels[0].prev[key] == p
    ensures r.ins[T].height == s.ins[T].height && r.ins[T].spl[0] == Splice(Some(key), Some(n))
  {
    var e := Run(T, 1);
    Next(s, e);
    var a := Apply(s, e);
    Next(a, e);
    var b := Apply(a, e);
    Next(b, e);
    r := Apply(b, e);
  }

  /** The first key of an empty list. */
  lemma FirstAlone(key: Node, top: Node) returns (r: State)
    requires Between(key, top)
    ensures Alone(r, Idle, key, top) && r.top == top && r.used == {key} && r.ins[T].height == 1
    ensures HEAD in r.levels[0].next && r.levels[0].next[HEAD] == key && key in r.levels[0].prev && r.levels[0].prev[key] == HEAD
    ensures r.ins[T].spl[0] == Splice(Some(key), Some(top)) && key in r.levels[0].on
  {
    var o := Empty(top);
    assert Possible(Empty(top), []) && o == After(Empty(top), []);
    Next(o, Open(T));
    var a := Apply(o, Open(T));
    Next(a, Event.Add(T, key));
    var b := Apply(a, Event.Add(T, key));
    var e := Run(T, 1);
    Next(b, e);
    var c := Apply(b, e);
    Next(c, e);
    var d := Apply(c, e);
    r := LinkAlone(d, key, HEAD, top);
  }

  /** A second key before the first, with the same inserter. */
  lemma SecondAlone(s: State, key: Node, first: Node) returns (r: State)
    requires Alone(s, Idle, first, s.top) && s.used == {first} && s.ins[T].height == 1 && first in s.levels[0].on
    requires HEAD in s.levels[0].next && s.levels[0].next[HEAD] == first && first in s.levels[0].prev && s.levels[0].prev[first] == HEAD
    requires s.ins[T].spl[0] == Splice(Some(first), Some(s.top)) && Lt(HEAD, key) && Lt(key, first) && Lt(first, s.top)
    ensures Alone(r, Idle, key, first) && r.ins[T].height == 1 && r.ins[T].spl[0] == Splice(Some(key), Some(first)) && r.top == s.top
  {
    Next(s, Event.Add(T, key));
    var a := Apply(s, Event.Add(T, key));
    var e := Run(T, 1);
    Next(a, e);
    var b := Apply(a, e);
    Next(b, e);
    var c := Apply(b, e);
    Next(c, e);
    var d := Apply(c, e);
    r := LinkAlone(d, key, HEAD, first);
  }

  /** Add two keys in descending order, then the greater one again: it is in the list and will not be found. */
  lemma BlindIsMet(key: Node, first: Node, top: Node) returns (s: State)
    requires Lt(HEAD, key) && Lt(key, first) && Lt(first, top)
    ensures Reachable(s) && T in s.ins && s.ins[T].pc.Idle? && s.top == top
    ensures |s.levels| == MAX_HEIGHT && first in s.levels[0].on && Blind(s.levels[0], s.ins[T], s.height, first)
  {
    var a := FirstAlone(first, top);
    s := SecondAlone(a, key, first);
    ReachableHolds(s);
    ChainsHold(s);
    assert Chain(s.levels[0].on, s.levels[0].next, top);
    AtRest(s, T);
    assert SpliceOk(s.levels, s.ins[T].spl, 0);
  }

  // ----- Looking up -----

  /**
    seekForBaseSplice at one moment: descends the levels and ends at the first node at or above key on the
    lowest. The node before it is the back link of a key found higher up, which is right once prev mirrors next.
   */
  method SeekForBaseSplice(levels: seq<Level>, height: nat, top: Node, key: Node) returns (prev: Node, next: Node, found: bool)
    requires Sorted(levels, top) && Back(levels[0].on, levels[0].prev) && 0 < height <= MAX_HEIGHT && Between(key, top)
    ensures next in levels[0].on && Le(key, next) && (forall c :: c in levels[0].on && Lt(c, next) ==> Lt(c, key))
    ensures found <==> key in levels[0].on
    ensures prev in levels[0].on && Lt(prev, key) && (Mirrored(levels[0], top) ==> levels[0].next[prev] == next)
  {
    var level := height - 1;
    prev, next, found := FindSpliceForLevel(levels[level], top, key, HEAD);
    while !found && level > 0
      invariant 0 <= level < height && SpliceFor(levels[level], prev, key, next, found)
    {
      assert levels[level].on <= levels[level - 1].on;
      level := level - 1;
      prev, next, found := FindSpliceForLevel(levels[level], top, key, prev);
    }
    BaseSplice(levels, level, top, prev, key, next, found);
    if found && level != 0 {
      prev := levels[0].prev[next];
      Before(levels[0], top, next);
    }
  }

  ghost predicate Mirrored(lv: Level, top: Node)
    requires Chain(lv.on, lv.next, top)
  {
    forall a :: a in lv.on && a != top ==> lv.next[a] in lv.prev && lv.prev[lv.next[a]] == a
  }

  /** A back link that mirrors is the node before. */
  lemma Before(lv: Level, top: Node, b: Node)
    requires Chain(lv.on, lv.next, top) && Back(lv.on, lv.prev) && b in lv.on && b != HEAD
    ensures Mirrored(lv, top) ==> lv.next[lv.prev[b]] == b
  {
    if Mirrored(lv, top) {
      var path := PathBetween(lv, top, HEAD, top);
      var i :| 0 <= i < |path| && path[i] == b;
      assert path[i - 1] in lv.on && lv.next[path[i - 1]] == b;
    }
  }

  lemma BaseSplice(levels: seq<Level>, level: nat, top: Node, prev: Node, key: Node, next: Node, found: bool)
    requires Sorted(levels, top) && level < MAX_HEIGHT && SpliceFor(levels[level], prev, key, next, found) && (found || level == 0) && Lt(key, top)
    ensures next in levels[0].on && Le(key, next) && (forall c :: c in levels[0].on && Lt(c, next) ==> Lt(c, key))
    ensures found <==> key in levels[0].on
  {
    assert Chain(levels[level].on, levels[level].next, top);
    if level > 0 {
      assert levels[level].on <= levels[0].on;
    }
  }

  // ----- Lookups among insertions -----

  /** A lookup on its way, one load at a time, and what it ends with. */
  datatype Lookup = At(level: nat, node: Node) | Ended(next: Node, found: bool)

  function LookOn(s: State, key: Node, r: Lookup): Lookup
    requires r.At? && r.level < |s.levels| && r.node in s.levels[r.level].next
  {
    var n := s.levels[r.level].next[r.node];
    if n == key then Ended(n, true)
    else if !Lt(key, n) then At(r.level, n)
    else if r.level == 0 then Ended(n, false)
    else At(r.level - 1, r.node)
  }

  /** The lookup's next load, or a step of an inserter. */
  datatype Mixed = Load | Step(e: Event)

  predicate CanMix(s: State, r: Lookup, m: Mixed) {
    match m
    case Load => r.At? && r.level < |s.levels| && r.node in s.levels[r.level].next
    case Step(e) => Enabled(s, e)
  }

  predicate MixPossible(s: State, key: Node, r: Lookup, run: seq<Mixed>)
    decreases |run|
  {
    run == [] || (CanMix(s, r, run[0]) && MixPossible(MixState(s, r, run[0]), key, MixLook(s, key, r, run[0]), run[1..]))
  }

  function MixState(s: State, r: Lookup, m: Mixed): State
    requires CanMix(s, r, m)
  {
    if m.Load? then s else Apply(s, m.e)
  }

  function MixLook(s: State, key: Node, r: Lookup, m: Mixed): Lookup
    requires CanMix(s, r, m)
  {
    if m.Load? then LookOn(s, key, r) else r
  }

  function MixAfter(s: State, key: Node, r: Lookup, run: seq<Mixed>): (State, Lookup)
    requires MixPossible(s, key, r, run)
    decreases |run|
  {
    if run == [] then (s, r) else MixAfter(MixState(s, r, run[0]), key, MixLook(s, key, r, run[0]), run[1..])
  }

  /**
    Where a lookup stands: below the key on its way; at its end, at a linked node with nothing between it
    and the key that was linked when the lookup began.
   */
  ghost predicate LookOk(s: State, key: Node, r: Lookup, begun: set<Node>)
    requires |s.levels| == MAX_HEIGHT
  {
    && begun <= s.levels[0].on
    && match r
       case At(level, node) => level < MAX_HEIGHT && node in s.levels[level].on && Lt(node, key)
       case Ended(next, found) =>
         && next in s.levels[0].on && Le(key, next) && (found <==> next == key)
         && (forall c :: c in begun && Lt(c, next) ==> Lt(c, key))
  }

  lemma LoadKeeps(s: State, key: Node, r: Lookup, begun: set<Node>)
    requires Sorted(s.levels, s.top) && Between(key, s.top) && LookOk(s, key, r, begun) && r.At?
    ensures CanMix(s, r, Load) && LookOk(s, key, LookOn(s, key, r), begun)
  {
    hide Enabled;
    assert Chain(s.levels[r.level].on, s.levels[r.level].next, s.top);
    if r.level > 0 {
      assert s.levels[r.level].on <= s.levels[r.level - 1].on && s.levels[r.level].on <= s.levels[0].on;
    }
  }

  lemma StepLook(s: State, key: Node, r: Lookup, begun: set<Node>, e: Event)
    requires Reachable(s) && |s.levels| == MAX_HEIGHT && LookOk(s, key, r, begun) && Enabled(s, e)
    ensures |Apply(s, e).levels| == MAX_HEIGHT && LookOk(Apply(s, e), key, r, begun)
  {
    NothingIsLost(s, e);
  }

  lemma {:induction false} MixKeeps(s: State, key: Node, r: Lookup, begun: set<Node>, run: seq<Mixed>)
    requires Reachable(s) && |s.levels| == MAX_HEIGHT && Between(key, s.top) && LookOk(s, key, r, begun) && MixPossible(s, key, r, run)
    ensures var (s', r') := MixAfter(s, key, r, run); Reachable(s') && |s'.levels| == MAX_HEIGHT && s'.top == s.top && LookOk(s', key, r', begun)
    decreases |run|
  {
    if run != [] {
      match run[0] {
        case Load =>
          ReachableHolds(s);
          ChainsHold(s);
          LoadKeeps(s, key, r, begun);
        case Step(e) =>
          StepLook(s, key, r, begun, e);
          Next(s, e);
          TopStays(s, e);
      }
      MixKeeps(MixState(s, r, run[0]), key, MixLook(s, key, r, run[0]), begun, run[1..]);
    }
  }

  /**
    A lookup that goes on while any number of inserters are at work: it can always take its next step; it
    finds the key if the key was linked when it began, and only if it is linked at the end; and no key
    linked when it began lies between the one looked for and the node it ends at.
   */
  lemma LookupIsRight(s: State, key: Node, run: seq<Mixed>)
    requires Reachable(s) && Between(key, s.top) && 0 < s.height && MixPossible(s, key, At(s.height - 1, HEAD), run)
    ensures var (s', r) := MixAfter(s, key, At(s.height - 1, HEAD), run);
      && |s.levels| == |s'.levels| == MAX_HEIGHT
      && (r.At? ==> CanMix(s', r, Load))
      && (r.Ended? && key in s.levels[0].on ==> r.found)
      && (r.Ended? && r.found ==> key in s'.levels[0].on)
      && (r.Ended? ==> r.next in s'.levels[0].on && Le(key, r.next) && forall c :: c in s.levels[0].on && Lt(c, r.next) ==> Lt(c, key))
  {
    ReachableHolds(s);
    ChainsHold(s);
    assert HEAD in s.levels[s.height - 1].on;
    var r0 := At(s.height - 1, HEAD);
    MixKeeps(s, key, r0, s.levels[0].on, run);
    var (s', r) := MixAfter(s, key, r0, run);
    if r.At? {
      ReachableHolds(s');
      ChainsHold(s');
      LoadKeeps(s', key, r, s.levels[0].on);
    }
  }
}
