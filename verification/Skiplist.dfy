/**
  The skiplist (internal/arenaskl/skl.go): towers of levels, and inserters that keep the neighbours
  they found last to save searching. Any number of inserters add distinct keys, interleaved at every
  load and swap.
 */
module Skiplist {
  import opened Common
  import opened SkipLevel

  const MAX_HEIGHT := 18

  datatype Splice = Splice(prev: Option<Node>, next: Option<Node>)

  /** The next step of an inserter adding a key. */
  datatype Pc =
    | Idle
    | Height(key: Node)                                          // findSplice: load the list's height
    | Check(key: Node, level: nat)                               // findSplice: is the kept splice still tight?
    | Search(key: Node, level: nat, at: Node)                    // findSpliceForLevel: load at.next
    | New(key: Node)                                             // newNode, raising the list's height
    | Linking(tall: nat, level: nat, missed: bool, link: Link)   // addInternal: linking the node bottom up

  datatype Inserter = Inserter(spl: seq<Splice>, height: nat, pc: Pc)

  datatype State = State(levels: seq<Level>, height: nat, top: Node, used: set<Node>, ins: map<Thread, Inserter>)

  datatype Event =
    | Open(t: Thread)                // a new inserter
    | Add(t: Thread, key: Node)      // with a key nobody has added
    | Run(t: Thread, tall: nat)      // its next step; tall: the height drawn for a new node

  predicate Kept(s: Splice) { s.prev.Some? && s.next.Some? }

  /** Both neighbours or neither: anything else makes addInternal panic or follow a nil pointer. */
  predicate Whole(s: Splice) { Kept(s) || s == Splice(None, None) }

  predicate CanRun(s: State, t: Thread, tall: nat) {
    && t in s.ins && |s.ins[t].spl| == MAX_HEIGHT == |s.levels| && 0 < s.height <= MAX_HEIGHT
    && match s.ins[t].pc
       case Idle => false
       case Height(_) => true
       case Check(_, level) =>
         level < s.ins[t].height ==> level < MAX_HEIGHT && Kept(s.ins[t].spl[level]) && s.ins[t].spl[level].prev.value in s.levels[level].next
       case Search(_, level, at) => level < MAX_HEIGHT && at in s.levels[level].next
       case New(_) => 0 < tall <= MAX_HEIGHT && Whole(s.ins[t].spl[0])
       case Linking(n, level, _, link) =>
         && level < n <= MAX_HEIGHT && (link.stage == Done || CanStep(s.levels[level], link))
         && (link.stage == Done && level + 1 < n ==> Whole(s.ins[t].spl[level + 1]))
  }

  function Move(s: State, t: Thread, i: Inserter): State { s.(ins := s.ins[t := i]) }

  function Run1(s: State, t: Thread, tall: nat): State
    requires CanRun(s, t, tall)
  {
    var i := s.ins[t];
    match i.pc
    case Height(key) => Move(s, t, LoadHeight(i, key, s.height))
    case Check(key, level) => Move(s, t, CheckSplice(s, i, key, level))
    case Search(key, level, at) => Move(s, t, SearchOn(i, key, level, at, s.levels[level].next[at]))
    case New(key) => State(s.levels, if s.height < tall then tall else s.height, s.top, s.used,
                           s.ins[t := i.(pc := Linking(tall, 0, false, Start(i, key, 0, s.top)))])
    case Linking(n, level, missed, link) => if link.stage == Done then NextLevel(s, t) else LinkStep(s, t)
  }

  function LoadHeight(i: Inserter, key: Node, h: nat): Inserter
    requires 0 < h
  {
    if i.height < h then i.(height := h, pc := Search(key, h - 1, HEAD)) else i.(pc := Check(key, 0))
  }

  function Restart(i: Inserter, key: Node): Inserter {
    i.(pc := if i.height == 0 then New(key) else Search(key, i.height - 1, HEAD))
  }

  /** A splice that is still tight and brackets the key serves for its level and those above. */
  function CheckSplice(s: State, i: Inserter, key: Node, level: nat): Inserter
    requires |i.spl| == MAX_HEIGHT == |s.levels|
    requires level < i.height ==> level < MAX_HEIGHT && Kept(i.spl[level]) && i.spl[level].prev.value in s.levels[level].next
  {
    if level >= i.height then Restart(i, key)
    else
      var p, n := i.spl[level].prev.value, i.spl[level].next.value;
      if s.levels[level].next[p] != n then i.(pc := Check(key, level + 1))
      else if (p != HEAD && !Lt(p, key)) || (n != s.top && Lt(n, key)) then Restart(i, key)
      else if level == 0 then i.(pc := New(key))
      else i.(pc := Search(key, level - 1, p))
  }

  function SearchOn(i: Inserter, key: Node, level: nat, at: Node, n: Node): Inserter
    requires level < |i.spl|
  {
    if Lt(key, n) then
      i.(spl := i.spl[level := Splice(Some(at), Some(n))], pc := if level == 0 then New(key) else Search(key, level - 1, at))
    else i.(pc := Search(key, level, n))
  }

  /** Where a level's linking starts: the splice found, or the whole level if it is above the list. */
  function Start(i: Inserter, key: Node, level: nat, top: Node): Link
    requires level < |i.spl| && Whole(i.spl[level])
  {
    var s := i.spl[level];
    if s.prev.Some? then Link(key, s.prev.value, s.next.value, Init) else Link(key, HEAD, top, Init)
  }

  function LinkStep(s: State, t: Thread): State
    requires t in s.ins && s.ins[t].pc.Linking? && s.ins[t].pc.level < |s.levels| && CanStep(s.levels[s.ins[t].pc.level], s.ins[t].pc.link)
  {
    var pc := s.ins[t].pc;
    var lv := s.levels[pc.level];
    s.(levels := s.levels[pc.level := LevelAfter(lv, pc.link)],
       ins := s.ins[t := s.ins[t].(pc := Linking(pc.tall, pc.level, pc.missed || LinkAfter(lv, pc.link).stage.Find?, LinkAfter(lv, pc.link)))])
  }

  function NextLevel(s: State, t: Thread): State
    requires t in s.ins && s.ins[t].pc.Linking? && |s.ins[t].spl| == MAX_HEIGHT && s.ins[t].pc.tall <= MAX_HEIGHT
    requires s.ins[t].pc.level + 1 < s.ins[t].pc.tall ==> Whole(s.ins[t].spl[s.ins[t].pc.level + 1])
  {
    var i := s.ins[t];
    var pc := i.pc;
    if pc.level + 1 < pc.tall then
      Move(s, t, i.(pc := Linking(pc.tall, pc.level + 1, pc.missed, Start(i, pc.link.node, pc.level + 1, s.top))))
    else if pc.missed then Move(s, t, i.(height := 0, pc := Idle))
    else Move(s, t, i.(spl := Advanced(i.spl, pc.link.node, pc.tall), pc := Idle))
  }

  /** The new node becomes the left neighbour on its levels. */
  function Advanced(spl: seq<Splice>, node: Node, tall: nat): (r: seq<Splice>)
    ensures |r| == |spl|
    ensures forall k :: 0 <= k < |spl| ==> r[k] == if k < tall then spl[k].(prev := Some(node)) else spl[k]
  {
    seq(|spl|, k requires 0 <= k < |spl| => if k < tall then spl[k].(prev := Some(node)) else spl[k])
  }

  predicate Enabled(s: State, e: Event) {
    match e
    case Open(t) => t !in s.ins
    case Add(t, key) => t in s.ins && s.ins[t].pc == Idle && key !in s.used && Lt(HEAD, key) && Lt(key, s.top)
    case Run(t, tall) => CanRun(s, t, tall)
  }

  function Apply(s: State, e: Event): State
    requires Enabled(s, e)
  {
    match e
    case Open(t) => Move(s, t, Inserter(seq(MAX_HEIGHT, k => Splice(None, None)), 0, Idle))
    case Add(t, key) => s.(used := s.used + {key}, ins := s.ins[t := s.ins[t].(pc := Height(key))])
    case Run(t, tall) => Run1(s, t, tall)
  }

  // ----- The invariant -----

  function LinksAt(ins: map<Thread, Inserter>, level: nat): map<Thread, Link> {
    map t | t in ins && ins[t].pc.Linking? && ins[t].pc.level == level :: ins[t].pc.link
  }

  function Key(pc: Pc): Option<Node> {
    match pc
    case Idle => None
    case Height(k) => Some(k)
    case Check(k, _) => Some(k)
    case Search(k, _, _) => Some(k)
    case New(k) => Some(k)
    case Linking(_, _, _, link) => Some(link.node)
  }

  /** Each level is in order, and below it everything of it is linked too. */
  ghost predicate LevelsOk(levels: seq<Level>, ins: map<Thread, Inserter>, top: Node) {
    && |levels| == MAX_HEIGHT && Lt(HEAD, top)
    && (forall l :: 0 <= l < |levels| ==> Inv(levels[l], LinksAt(ins, l), top))
    && Nested(levels)
  }

  ghost predicate Nested(levels: seq<Level>) {
    forall l, m :: 0 <= l < m < |levels| ==> levels[m].on <= levels[l].on
  }

  /** A kept splice of two linked nodes. */
  ghost predicate SpliceOk(levels: seq<Level>, spl: seq<Splice>, l: nat)
    requires l < |spl| && l < |levels|
  {
    Kept(spl[l]) && spl[l].prev.value in levels[l].on && spl[l].next.value in levels[l].on && Lt(spl[l].prev.value, spl[l].next.value)
  }

  predicate Inside(inner: Splice, outer: Splice) {
    Kept(inner) && Kept(outer) && Le(outer.prev.value, inner.prev.value) && Le(inner.next.value, outer.next.value)
  }

  /** Splices from one level up to another hold, each inside the one above. */
  ghost predicate Tower(levels: seq<Level>, spl: seq<Splice>, from: nat, to: nat)
    requires to <= |spl| == |levels|
  {
    && (forall l :: from <= l < to ==> SpliceOk(levels, spl, l))
    && (forall l, m :: from <= l < m < to ==> Inside(spl[l], spl[m]))
  }

  ghost predicate Brackets(spl: seq<Splice>, key: Node, from: nat, to: nat)
    requires to <= |spl|
  {
    forall l :: from <= l < to ==> Kept(spl[l]) && Lt(spl[l].prev.value, key) && Lt(key, spl[l].next.value)
  }

  ghost predicate Blank(spl: seq<Splice>, from: nat) {
    forall l :: from <= l < |spl| ==> spl[l] == Splice(None, None)
  }

  ghost predicate InserterOk(levels: seq<Level>, height: nat, top: Node, i: Inserter)
    requires |levels| == MAX_HEIGHT && height <= MAX_HEIGHT
  {
    && |i.spl| == MAX_HEIGHT && i.height <= height && Blank(i.spl, height)
    && match i.pc
       case Idle => Tower(levels, i.spl, 0, i.height)
       case Height(_) => Tower(levels, i.spl, 0, i.height)
       case Check(_, level) => Tower(levels, i.spl, 0, i.height) && Blank(i.spl, i.height)
       case Search(key, level, at) =>
         && level < i.height && Tower(levels, i.spl, level + 1, i.height) && Brackets(i.spl, key, level + 1, i.height)
         && Blank(i.spl, i.height) && at in levels[level].on && Lt(at, key)
         && (forall l :: level < l < i.height ==> Le(i.spl[l].prev.value, at))
       case New(key) => Tower(levels, i.spl, 0, i.height) && Brackets(i.spl, key, 0, i.height) && Blank(i.spl, i.height)
       case Linking(tall, level, _, link) =>
         && level < tall <= height && Tower(levels, i.spl, 0, i.height) && Brackets(i.spl, link.node, 0, i.height) && Blank(i.spl, i.height)
         && (forall l :: 0 <= l < level ==> link.node in levels[l].on)
  }

  /** Keys being added are new, and each belongs to one inserter. */
  ghost predicate KeyOk(levels: seq<Level>, top: Node, used: set<Node>, pc: Pc) {
    pc.Idle? || (
      && Key(pc).value in used && Lt(HEAD, Key(pc).value) && Lt(Key(pc).value, top)
      && (forall l :: 0 <= l < |levels| && (pc.Linking? ==> pc.level < l) ==> Key(pc).value !in levels[l].on))
  }

  ghost predicate Keys(ins: map<Thread, Inserter>) {
    forall t, u :: t in ins && u in ins && t != u && Key(ins[t].pc).Some? && Key(ins[u].pc).Some? ==> Key(ins[t].pc) != Key(ins[u].pc)
  }

  /** Only keys that were added are linked. */
  ghost predicate OnlyUsed(levels: seq<Level>, top: Node, used: set<Node>) {
    forall l, a :: 0 <= l < |levels| && a in levels[l].on ==> a == HEAD || a == top || a in used
  }

  ghost predicate Threads(levels: seq<Level>, height: nat, top: Node, used: set<Node>, ins: map<Thread, Inserter>)
    requires |levels| == MAX_HEIGHT && height <= MAX_HEIGHT
  {
    forall t :: t in ins ==> InserterOk(levels, height, top, ins[t]) && KeyOk(levels, top, used, ins[t].pc)
  }

  ghost predicate All(s: State) {
    && LevelsOk(s.levels, s.ins, s.top) && 0 < s.height <= MAX_HEIGHT && Keys(s.ins)
    && OnlyUsed(s.levels, s.top, s.used) && Threads(s.levels, s.height, s.top, s.used, s.ins)
  }

  // ----- An inserter on its own -----

  lemma LoadOk(levels: seq<Level>, height: nat, top: Node, i: Inserter, key: Node)
    requires |levels| == MAX_HEIGHT && 0 < height <= MAX_HEIGHT && InserterOk(levels, height, top, i) && i.pc == Height(key)
    requires Lt(HEAD, key) && forall l :: 0 <= l < MAX_HEIGHT ==> HEAD in levels[l].on
    ensures InserterOk(levels, height, top, LoadHeight(i, key, height))
  {
  }

  lemma RestartOk(levels: seq<Level>, height: nat, top: Node, i: Inserter, key: Node)
    requires |levels| == MAX_HEIGHT && 0 < height <= MAX_HEIGHT && InserterOk(levels, height, top, i) && i.pc.Check?
    requires Lt(HEAD, key) && forall l :: 0 <= l < MAX_HEIGHT ==> HEAD in levels[l].on
    ensures InserterOk(levels, height, top, Restart(i, key))
  {
  }

  /** A splice that brackets the key is bracketed by those kept for the levels above. */
  lemma HigherBracket(levels: seq<Level>, spl: seq<Splice>, key: Node, level: nat, h: nat)
    requires h <= |spl| == |levels| && level < h && Tower(levels, spl, 0, h)
    requires Kept(spl[level]) && Lt(spl[level].prev.value, key) && Lt(key, spl[level].next.value)
    ensures Brackets(spl, key, level, h) && Tower(levels, spl, level, h)
    ensures forall l :: level <= l < h ==> Le(spl[l].prev.value, spl[level].prev.value)
  {
    forall l | level <= l < h
      ensures Kept(spl[l]) && Le(spl[l].prev.value, spl[level].prev.value) && Le(spl[level].next.value, spl[l].next.value)
    {
      assert SpliceOk(levels, spl, l);
      assert level < l ==> Inside(spl[level], spl[l]);
    }
  }

  lemma CheckOk(s: State, t: Thread)
    requires All(s) && t in s.ins && s.ins[t].pc.Check?
    ensures CanRun(s, t, 1)
    ensures InserterOk(s.levels, s.height, s.top, CheckSplice(s, s.ins[t], s.ins[t].pc.key, s.ins[t].pc.level))
  {
    var i := s.ins[t];
    var key, level := i.pc.key, i.pc.level;
    assert InserterOk(s.levels, s.height, s.top, i) && KeyOk(s.levels, s.top, s.used, i.pc);
    EndsLinked(s.levels, s.ins, s.top);
    RestartOk(s.levels, s.height, s.top, i, key);
    if level < i.height {
      assert SpliceOk(s.levels, i.spl, level) && Inv(s.levels[level], LinksAt(s.ins, level), s.top);
      CheckOne(s, i, key, level);
    }
  }

  lemma EndsLinked(levels: seq<Level>, ins: map<Thread, Inserter>, top: Node)
    requires LevelsOk(levels, ins, top)
    ensures forall l :: 0 <= l < MAX_HEIGHT ==> HEAD in levels[l].on && top in levels[l].on
  {
    forall l | 0 <= l < MAX_HEIGHT
      ensures HEAD in levels[l].on && top in levels[l].on
    {
      assert Inv(levels[l], LinksAt(ins, l), top);
    }
  }

  lemma CheckOne(s: State, i: Inserter, key: Node, level: nat)
    requires |s.levels| == MAX_HEIGHT && 0 < s.height <= MAX_HEIGHT && InserterOk(s.levels, s.height, s.top, i) && i.pc == Check(key, level) && level < i.height
    requires Chain(s.levels[level].on, s.levels[level].next, s.top) && Lt(HEAD, key) && Lt(key, s.top) && key !in s.levels[level].on
    requires InserterOk(s.levels, s.height, s.top, Restart(i, key)) && Nested(s.levels)
    requires i.spl[level].prev.Some? && i.spl[level].prev.value in s.levels[level].next && Kept(i.spl[level])
    ensures InserterOk(s.levels, s.height, s.top, CheckSplice(s, i, key, level))
  {
    var p, n := i.spl[level].prev.value, i.spl[level].next.value;
    assert SpliceOk(s.levels, i.spl, level);
    if s.levels[level].next[p] == n && Lt(p, key) && Lt(key, n) {
      HigherBracket(s.levels, i.spl, key, level, i.height);
    }
  }

  lemma SearchOk(s: State, i: Inserter, key: Node, level: nat, at: Node)
    requires |s.levels| == MAX_HEIGHT && 0 < s.height <= MAX_HEIGHT && InserterOk(s.levels, s.height, s.top, i) && i.pc == Search(key, level, at)
    requires Chain(s.levels[level].on, s.levels[level].next, s.top) && Lt(key, s.top) && key !in s.levels[level].on && Nested(s.levels)
    ensures at in s.levels[level].next && InserterOk(s.levels, s.height, s.top, SearchOn(i, key, level, at, s.levels[level].next[at]))
  {
    var n := s.levels[level].next[at];
    if Lt(key, n) {
      var i' := SearchOn(i, key, level, at, n);
      forall m | level < m < i.height
        ensures SpliceOk(s.levels, i'.spl, m) && Inside(i'.spl[level], i'.spl[m])
      {
        assert SpliceOk(s.levels, i.spl, m) && Le(i.spl[m].prev.value, at);
        assert i.spl[m].next.value in s.levels[level].on;
      }
      FoundTower(s.levels, i, key, level, at, n);
    }
  }

  lemma FoundTower(levels: seq<Level>, i: Inserter, key: Node, level: nat, at: Node, n: Node)
    requires |levels| == MAX_HEIGHT == |i.spl| && level < i.height <= MAX_HEIGHT && Nested(levels)
    requires Tower(levels, i.spl, level + 1, i.height) && Brackets(i.spl, key, level + 1, i.height)
    requires at in levels[level].on && n in levels[level].on && Lt(at, key) && Lt(key, n)
    requires var spl := i.spl[level := Splice(Some(at), Some(n))]; forall m :: level < m < i.height ==> Inside(spl[level], spl[m])
    ensures var spl := i.spl[level := Splice(Some(at), Some(n))]; Tower(levels, spl, level, i.height) && Brackets(spl, key, level, i.height)
  {
    var spl := i.spl[level := Splice(Some(at), Some(n))];
    forall m | level < m < i.height
      ensures SpliceOk(levels, spl, m)
    {
      assert SpliceOk(levels, i.spl, m);
    }
  }

  /** The neighbours a level's linking starts from bracket the key. */
  lemma StartOk(s: State, t: Thread, key: Node, level: nat)
    requires All(s) && t in s.ins && level < MAX_HEIGHT && Lt(HEAD, key) && Lt(key, s.top)
    requires var i := s.ins[t]; |i.spl| == MAX_HEIGHT && i.height <= MAX_HEIGHT && Tower(s.levels, i.spl, 0, i.height) && Brackets(i.spl, key, 0, i.height) && Blank(i.spl, i.height)
    requires key !in s.levels[level].on
    ensures Whole(s.ins[t].spl[level])
    ensures var k := Start(s.ins[t], key, level, s.top);
      Inv(s.levels[level], LinksAt(s.ins, level), s.top) && k.stage == Init && LinkOk(s.levels[level], k, s.top)
  {
    EndsLinked(s.levels, s.ins, s.top);
    if level < s.ins[t].height {
      assert SpliceOk(s.levels, s.ins[t].spl, level);
    }
  }

  // ----- One step of one inserter -----

  lemma SameLinks(levels: seq<Level>, ins: map<Thread, Inserter>, ins': map<Thread, Inserter>, top: Node)
    requires LevelsOk(levels, ins, top) && forall l :: 0 <= l < |levels| ==> LinksAt(ins', l) == LinksAt(ins, l)
    ensures LevelsOk(levels, ins', top)
  {
    forall l | 0 <= l < |levels|
      ensures Inv(levels[l], LinksAt(ins', l), top)
    {
      assert Inv(levels[l], LinksAt(ins, l), top);
    }
  }

  lemma ThreadsMove(s: State, t: Thread, i: Inserter)
    requires |s.levels| == MAX_HEIGHT && s.height <= MAX_HEIGHT && Threads(s.levels, s.height, s.top, s.used, s.ins)
    requires InserterOk(s.levels, s.height, s.top, i) && KeyOk(s.levels, s.top, s.used, i.pc)
    ensures Threads(s.levels, s.height, s.top, s.used, s.ins[t := i])
  {
  }

  lemma KeyOkSame(levels: seq<Level>, top: Node, used: set<Node>, pc: Pc, pc': Pc)
    requires KeyOk(levels, top, used, pc) && !pc.Linking? && !pc'.Linking? && Key(pc) == Key(pc')
    ensures KeyOk(levels, top, used, pc')
  {
  }

  /** A step that leaves the levels alone and is not about linking. */
  lemma LocalKeeps(s: State, t: Thread, i: Inserter)
    requires All(s) && t in s.ins && !s.ins[t].pc.Linking? && !i.pc.Linking?
    requires InserterOk(s.levels, s.height, s.top, i) && Key(i.pc) == Key(s.ins[t].pc)
    ensures All(Move(s, t, i))
  {
    LocalLinks(s.ins, t, i);
    SameLinks(s.levels, s.ins, s.ins[t := i], s.top);
    LocalThreads(s, t, i);
    KeysMove(s.ins, t, i);
  }

  lemma LocalLinks(ins: map<Thread, Inserter>, t: Thread, i: Inserter)
    requires t in ins && !ins[t].pc.Linking? && !i.pc.Linking?
    ensures forall l: nat :: LinksAt(ins[t := i], l) == LinksAt(ins, l)
  {
    forall l: nat
      ensures LinksAt(ins[t := i], l) == LinksAt(ins, l)
    {
      LinksMove(ins, t, i, l);
      LinksWithout(ins, t, l);
    }
  }

  lemma LocalThreads(s: State, t: Thread, i: Inserter)
    requires |s.levels| == MAX_HEIGHT && s.height <= MAX_HEIGHT && Threads(s.levels, s.height, s.top, s.used, s.ins)
    requires t in s.ins && !s.ins[t].pc.Linking? && !i.pc.Linking? && InserterOk(s.levels, s.height, s.top, i) && Key(i.pc) == Key(s.ins[t].pc)
    ensures Threads(s.levels, s.height, s.top, s.used, s.ins[t := i])
  {
    assert KeyOk(s.levels, s.top, s.used, s.ins[t].pc);
    KeyOkSame(s.levels, s.top, s.used, s.ins[t].pc, i.pc);
    ThreadsMove(s, t, i);
  }

  lemma KeysMove(ins: map<Thread, Inserter>, t: Thread, i: Inserter)
    requires Keys(ins) && t in ins && (Key(i.pc) == Key(ins[t].pc) || Key(i.pc) == None)
    ensures Keys(ins[t := i])
  {
  }

  lemma FindKeeps(s: State, t: Thread, tall: nat)
    requires All(s) && CanRun(s, t, tall) && (s.ins[t].pc.Height? || s.ins[t].pc.Check? || s.ins[t].pc.Search?)
    ensures All(Run1(s, t, tall))
  {
    var i := s.ins[t];
    assert InserterOk(s.levels, s.height, s.top, i) && KeyOk(s.levels, s.top, s.used, i.pc);
    EndsLinked(s.levels, s.ins, s.top);
    match i.pc
    case Height(key) =>
      LoadOk(s.levels, s.height, s.top, i, key);
      LocalKeeps(s, t, LoadHeight(i, key, s.height));
    case Check(key, level) =>
      CheckOk(s, t);
      LocalKeeps(s, t, CheckSplice(s, i, key, level));
    case Search(key, level, at) =>
      assert Inv(s.levels[level], LinksAt(s.ins, level), s.top);
      SearchOk(s, i, key, level, at);
      LocalKeeps(s, t, SearchOn(i, key, level, at, s.levels[level].next[at]));
  }

  // ----- Linking -----

  lemma LinksMove(ins: map<Thread, Inserter>, t: Thread, i: Inserter, l: nat)
    ensures LinksAt(ins[t := i], l) == if i.pc.Linking? && i.pc.level == l then LinksAt(ins, l)[t := i.pc.link] else LinksAt(ins, l) - {t}
  {
  }

  lemma LinksWithout(ins: map<Thread, Inserter>, t: Thread, l: nat)
    requires t !in LinksAt(ins, l)
    ensures LinksAt(ins, l) - {t} == LinksAt(ins, l)
  {
  }

  /** A thread joins a level with a fresh link; the other levels see no change. */
  lemma JoinLevel(levels: seq<Level>, ins: map<Thread, Inserter>, top: Node, t: Thread, i: Inserter)
    requires LevelsOk(levels, ins, top) && t in ins && !ins[t].pc.Linking? && Keys(ins)
    requires i.pc.Linking? && i.pc.level < MAX_HEIGHT && Key(i.pc) == Key(ins[t].pc)
    requires var lv := levels[i.pc.level]; Inv(lv, LinksAt(ins, i.pc.level), top) && i.pc.link.stage == Init && LinkOk(lv, i.pc.link, top)
    ensures LevelsOk(levels, ins[t := i], top)
  {
    hide Inv;
    forall l | 0 <= l < |levels|
      ensures Inv(levels[l], LinksAt(ins[t := i], l), top)
    {
      assert Inv(levels[l], LinksAt(ins, l), top);
      LinksMove(ins, t, i, l);
      LinksWithout(ins, t, l);
      if l == i.pc.level {
        JoinOne(levels[l], ins, top, t, i.pc.link, l);
      }
    }
  }

  lemma JoinOne(lv: Level, ins: map<Thread, Inserter>, top: Node, t: Thread, k: Link, level: nat)
    requires Inv(lv, LinksAt(ins, level), top) && t in ins && !ins[t].pc.Linking? && Keys(ins)
    requires Key(ins[t].pc) == Some(k.node) && k.stage == Init && LinkOk(lv, k, top)
    ensures Inv(lv, LinksAt(ins, level)[t := k], top)
  {
    var links := LinksAt(ins, level);
    forall u | u in links
      ensures links[u].node != k.node
    {
      assert Key(ins[u].pc) != Key(ins[t].pc);
    }
    JoinKeeps(lv, links, t, k, top);
  }

  lemma TallerOk(levels: seq<Level>, height: nat, height': nat, top: Node, i: Inserter)
    requires |levels| == MAX_HEIGHT && height <= height' <= MAX_HEIGHT && InserterOk(levels, height, top, i)
    ensures InserterOk(levels, height', top, i)
  {
  }

  lemma NewKeeps(s: State, t: Thread, tall: nat)
    requires All(s) && CanRun(s, t, tall) && s.ins[t].pc.New?
    ensures All(Run1(s, t, tall))
  {
    var i, key := s.ins[t], s.ins[t].pc.key;
    assert InserterOk(s.levels, s.height, s.top, i) && KeyOk(s.levels, s.top, s.used, i.pc);
    StartOk(s, t, key, 0);
    var s' := Run1(s, t, tall);
    JoinLevel(s.levels, s.ins, s.top, t, s'.ins[t]);
    KeysMove(s.ins, t, s'.ins[t]);
    forall u | u in s.ins
      ensures InserterOk(s.levels, s'.height, s.top, s.ins[u]) && KeyOk(s.levels, s.top, s.used, s.ins[u].pc)
    {
      TallerOk(s.levels, s.height, s'.height, s.top, s.ins[u]);
    }
    ThreadsMove(s.(height := s'.height), t, s'.ins[t]);
  }

  /** More nodes at one level, everything else as it was. */
  ghost predicate Grown(levels: seq<Level>, levels': seq<Level>) {
    |levels'| == |levels| && forall l :: 0 <= l < |levels| ==> levels[l].on <= levels'[l].on
  }

  lemma TowerGrows(levels: seq<Level>, levels': seq<Level>, spl: seq<Splice>, from: nat, to: nat)
    requires Grown(levels, levels') && to <= |spl| == |levels| && Tower(levels, spl, from, to)
    ensures Tower(levels', spl, from, to)
  {
    forall l | from <= l < to
      ensures SpliceOk(levels', spl, l)
    {
      assert SpliceOk(levels, spl, l);
    }
  }

  lemma InserterGrows(levels: seq<Level>, levels': seq<Level>, height: nat, top: Node, i: Inserter)
    requires |levels| == MAX_HEIGHT && height <= MAX_HEIGHT && Grown(levels, levels') && InserterOk(levels, height, top, i)
    ensures InserterOk(levels', height, top, i)
  {
    match i.pc
    case Search(_, level, _) => TowerGrows(levels, levels', i.spl, level + 1, i.height);
    case _ => TowerGrows(levels, levels', i.spl, 0, i.height);
  }

  /** One swap links at most the thread's own node. */
  lemma LinksOwn(lv: Level, k: Link)
    requires CanStep(lv, k)
    ensures lv.on <= LevelAfter(lv, k).on <= lv.on + {k.node} && LinkAfter(lv, k).node == k.node
  {
  }

  lemma LinkLevels(s: State, t: Thread, s': State)
    requires All(s) && CanRun(s, t, 1) && s.ins[t].pc.Linking? && s.ins[t].pc.link.stage != Done && s' == LinkStep(s, t)
    ensures LevelsOk(s'.levels, s'.ins, s'.top) && Grown(s.levels, s'.levels)
  {
    var pc := s.ins[t].pc;
    LinksOwn(s.levels[pc.level], pc.link);
    assert InserterOk(s.levels, s.height, s.top, s.ins[t]);
    LinkNests(s.levels, pc.level, LevelAfter(s.levels[pc.level], pc.link), pc.link.node);
    forall l | 0 <= l < |s.levels|
      ensures Inv(s'.levels[l], LinksAt(s'.ins, l), s.top)
    {
      assert Inv(s.levels[l], LinksAt(s.ins, l), s.top);
      LinksMove(s.ins, t, s'.ins[t], l);
      if l == pc.level {
        StepKeeps(s.levels[l], LinksAt(s.ins, l), t, s.top);
      } else {
        LinksWithout(s.ins, t, l);
      }
    }
  }

  lemma LinkNests(levels: seq<Level>, level: nat, lv: Level, node: Node)
    requires Nested(levels) && level < |levels| && levels[level].on <= lv.on <= levels[level].on + {node}
    requires forall l :: 0 <= l < level ==> node in levels[l].on
    ensures Nested(levels[level := lv]) && Grown(levels, levels[level := lv])
  {
  }

  lemma LinkStepKeeps(s: State, t: Thread)
    requires All(s) && CanRun(s, t, 1) && s.ins[t].pc.Linking? && s.ins[t].pc.link.stage != Done
    ensures All(LinkStep(s, t))
  {
    var s' := LinkStep(s, t);
    var pc := s.ins[t].pc;
    LinkLevels(s, t, s');
    LinksOwn(s.levels[pc.level], pc.link);
    KeysMove(s.ins, t, s'.ins[t]);
    assert InserterOk(s.levels, s.height, s.top, s.ins[t]) && KeyOk(s.levels, s.top, s.used, pc);
    LinkThreads(s, t, s');
    LinkUsed(s, t, s');
  }

  lemma LinkUsed(s: State, t: Thread, s': State)
    requires OnlyUsed(s.levels, s.top, s.used) && t in s.ins && s.ins[t].pc.Linking? && s.ins[t].pc.level < |s.levels|
    requires s.ins[t].pc.link.node in s.used
    requires CanStep(s.levels[s.ins[t].pc.level], s.ins[t].pc.link) && s' == LinkStep(s, t)
    ensures OnlyUsed(s'.levels, s'.top, s'.used)
  {
    LinksOwn(s.levels[s.ins[t].pc.level], s.ins[t].pc.link);
  }

  lemma LinkThreads(s: State, t: Thread, s': State)
    requires All(s) && CanRun(s, t, 1) && s.ins[t].pc.Linking? && s.ins[t].pc.link.stage != Done && s' == LinkStep(s, t)
    requires Grown(s.levels, s'.levels)
    ensures Threads(s'.levels, s'.height, s'.top, s'.used, s'.ins)
  {
    var pc := s.ins[t].pc;
    LinksOwn(s.levels[pc.level], pc.link);
    forall u | u in s.ins
      ensures InserterOk(s'.levels, s.height, s.top, s'.ins[u]) && KeyOk(s'.levels, s.top, s.used, s'.ins[u].pc)
    {
      assert InserterOk(s.levels, s.height, s.top, s.ins[u]) && KeyOk(s.levels, s.top, s.used, s.ins[u].pc);
      InserterGrows(s.levels, s'.levels, s.height, s.top, s.ins[u]);
      KeyStaysNew(s, t, u, s');
    }
  }

  lemma KeyStaysNew(s: State, t: Thread, u: Thread, s': State)
    requires |s.levels| == MAX_HEIGHT && t in s.ins && u in s.ins && s.ins[t].pc.Linking? && s.ins[t].pc.level < |s.levels|
    requires Keys(s.ins) && KeyOk(s.levels, s.top, s.used, s.ins[u].pc)
    requires CanStep(s.levels[s.ins[t].pc.level], s.ins[t].pc.link) && s' == LinkStep(s, t)
    ensures KeyOk(s'.levels, s.top, s.used, s'.ins[u].pc)
  {
    LinksOwn(s.levels[s.ins[t].pc.level], s.ins[t].pc.link);
    if u != t && Key(s.ins[u].pc).Some? {
      assert Key(s.ins[u].pc) != Key(s.ins[t].pc);
    }
  }

  /** A thread that is done with a level leaves it. */
  lemma LeaveLevel(levels: seq<Level>, ins: map<Thread, Inserter>, top: Node, t: Thread, i: Inserter)
    requires LevelsOk(levels, ins, top) && t in ins && ins[t].pc.Linking? && ins[t].pc.level < MAX_HEIGHT && ins[t].pc.link.stage == Done
    requires !i.pc.Linking?
    ensures LevelsOk(levels, ins[t := i], top)
  {
    forall l | 0 <= l < |levels|
      ensures Inv(levels[l], LinksAt(ins[t := i], l), top)
    {
      assert Inv(levels[l], LinksAt(ins, l), top);
      LinksMove(ins, t, i, l);
      if l == ins[t].pc.level {
        LeaveKeeps(levels[l], LinksAt(ins, l), t, top);
      } else {
        LinksWithout(ins, t, l);
      }
    }
  }

  lemma DoneOnLevel(lv: Level, links: map<Thread, Link>, top: Node, t: Thread)
    requires Inv(lv, links, top) && t in links && links[t].stage == Done
    ensures links[t].node in lv.on
  {
    assert LinkOk(lv, links[t], top);
  }

  /** Done at a level means linked there. */
  lemma DoneIsOn(s: State, t: Thread)
    requires All(s) && t in s.ins && s.ins[t].pc.Linking? && s.ins[t].pc.level < MAX_HEIGHT && s.ins[t].pc.link.stage == Done
    ensures forall l :: 0 <= l <= s.ins[t].pc.level ==> s.ins[t].pc.link.node in s.levels[l].on
  {
    hide Inv, Tower, Brackets, Blank, Nested, OnlyUsed, Keys, KeyOk;
    var pc := s.ins[t].pc;
    assert InserterOk(s.levels, s.height, s.top, s.ins[t]);
    assert LinksAt(s.ins, pc.level)[t] == pc.link;
    DoneOnLevel(s.levels[pc.level], LinksAt(s.ins, pc.level), s.top, t);
  }

  lemma ClimbKeeps(s: State, t: Thread)
    requires All(s) && CanRun(s, t, 1) && s.ins[t].pc.Linking? && s.ins[t].pc.link.stage == Done && s.ins[t].pc.level + 1 < s.ins[t].pc.tall
    ensures All(NextLevel(s, t))
  {
    hide LinkOk, Chain, Inv, LinksAt, Keys, Whole, CanStep, Advanced, Blank, Tower, Brackets;
    var i := s.ins[t];
    var pc := i.pc;
    var s' := NextLevel(s, t);
    assert InserterOk(s.levels, s.height, s.top, i) && KeyOk(s.levels, s.top, s.used, pc);
    // in between, the thread stands at no level
    var rest := i.(pc := New(pc.link.node));
    var ins0 := s.ins[t := rest];
    LeaveLevel(s.levels, s.ins, s.top, t, rest);
    KeysMove(s.ins, t, rest);
    DoneIsOn(s, t);
    ClimbStart(s, t, ins0);
    JoinLevel(s.levels, ins0, s.top, t, s'.ins[t]);
    assert ins0[t := s'.ins[t]] == s'.ins;
    KeysMove(s.ins, t, s'.ins[t]);
    ThreadsMove(s, t, s'.ins[t]);
  }

  lemma ClimbStart(s: State, t: Thread, ins0: map<Thread, Inserter>)
    requires LevelsOk(s.levels, ins0, s.top) && t in s.ins && s.ins[t].pc.Linking? && s.ins[t].pc.level + 1 < MAX_HEIGHT && s.height <= MAX_HEIGHT
    requires InserterOk(s.levels, s.height, s.top, s.ins[t]) && KeyOk(s.levels, s.top, s.used, s.ins[t].pc)
    ensures Whole(s.ins[t].spl[s.ins[t].pc.level + 1])
    ensures var l := s.ins[t].pc.level + 1; var k := Start(s.ins[t], s.ins[t].pc.link.node, l, s.top);
      Inv(s.levels[l], LinksAt(ins0, l), s.top) && k.stage == Init && LinkOk(s.levels[l], k, s.top)
  {
    var l := s.ins[t].pc.level + 1;
    EndsLinked(s.levels, ins0, s.top);
    assert Inv(s.levels[l], LinksAt(ins0, l), s.top);
    if l < s.ins[t].height {
      assert SpliceOk(s.levels, s.ins[t].spl, l);
    }
  }

  lemma AdvancedOk(levels: seq<Level>, spl: seq<Splice>, node: Node, tall: nat, h: nat)
    requires h <= |spl| == |levels| && tall <= |spl| && Tower(levels, spl, 0, h) && Brackets(spl, node, 0, h)
    requires forall l :: 0 <= l < tall ==> node in levels[l].on
    ensures Tower(levels, Advanced(spl, node, tall), 0, h)
  {
    var spl' := Advanced(spl, node, tall);
    forall l | 0 <= l < h
      ensures SpliceOk(levels, spl', l)
    {
      assert SpliceOk(levels, spl, l) && Kept(spl[l]);
    }
    forall l, m | 0 <= l < m < h
      ensures Inside(spl'[l], spl'[m])
    {
      assert Inside(spl[l], spl[m]);
    }
  }

  lemma FinishKeeps(s: State, t: Thread)
    requires All(s) && CanRun(s, t, 1) && s.ins[t].pc.Linking? && s.ins[t].pc.link.stage == Done && s.ins[t].pc.level + 1 == s.ins[t].pc.tall
    ensures All(NextLevel(s, t))
  {
    var i := s.ins[t];
    var pc := i.pc;
    var s' := NextLevel(s, t);
    assert InserterOk(s.levels, s.height, s.top, i);
    LeaveLevel(s.levels, s.ins, s.top, t, s'.ins[t]);
    KeysMove(s.ins, t, s'.ins[t]);
    DoneIsOn(s, t);
    if !pc.missed {
      AdvancedOk(s.levels, i.spl, pc.link.node, pc.tall, i.height);
    }
    ThreadsMove(s, t, s'.ins[t]);
  }

  lemma RunKeeps1(s: State, t: Thread, tall: nat)
    requires All(s) && CanRun(s, t, tall)
    ensures All(Run1(s, t, tall))
  {
    match s.ins[t].pc
    case New(_) => NewKeeps(s, t, tall);
    case Linking(n, level, _, link) =>
      if link.stage != Done {
        LinkStepKeeps(s, t);
      } else if level + 1 < n {
        ClimbKeeps(s, t);
      } else {
        FinishKeeps(s, t);
      }
    case _ => FindKeeps(s, t, tall);
  }

  lemma OpenKeeps(s: State, t: Thread)
    requires All(s) && t !in s.ins
    ensures All(Apply(s, Open(t)))
  {
    var i := Inserter(seq(MAX_HEIGHT, k => Splice(None, None)), 0, Idle);
    forall l | 0 <= l < |s.levels|
      ensures LinksAt(s.ins[t := i], l) == LinksAt(s.ins, l)
    {
      LinksMove(s.ins, t, i, l);
      LinksWithout(s.ins, t, l);
    }
    SameLinks(s.levels, s.ins, s.ins[t := i], s.top);
    ThreadsMove(s, t, i);
  }

  lemma AddKeeps(s: State, t: Thread, key: Node)
    requires All(s) && Enabled(s, Add(t, key))
    ensures All(Apply(s, Add(t, key)))
  {
    var i := s.ins[t].(pc := Height(key));
    var used := s.used + {key};
    forall l | 0 <= l < |s.levels|
      ensures LinksAt(s.ins[t := i], l) == LinksAt(s.ins, l)
    {
      LinksMove(s.ins, t, i, l);
      LinksWithout(s.ins, t, l);
    }
    SameLinks(s.levels, s.ins, s.ins[t := i], s.top);
    forall u | u in s.ins
      ensures InserterOk(s.levels, s.height, s.top, s.ins[u]) && KeyOk(s.levels, s.top, used, s.ins[u].pc)
      ensures Key(s.ins[u].pc) != Some(key)
    {
      assert KeyOk(s.levels, s.top, s.used, s.ins[u].pc);
    }
    ThreadsMove(s.(used := used), t, i);
  }

  lemma EventKeeps(s: State, e: Event)
    requires All(s) && Enabled(s, e)
    ensures All(Apply(s, e))
  {
    match e
    case Open(t) => OpenKeeps(s, t);
    case Add(t, key) => AddKeeps(s, t, key);
    case Run(t, tall) => RunKeeps1(s, t, tall);
  }

  // ----- Whole runs -----

  function Empty(top: Node): State {
    State(seq(MAX_HEIGHT, l => Level({HEAD, top}, map[HEAD := top], map[top := HEAD])), 1, top, {}, map[])
  }

  predicate Possible(s: State, events: seq<Event>)
    decreases |events|
  {
    events == [] || (Enabled(s, events[0]) && Possible(Apply(s, events[0]), events[1..]))
  }

  function After(s: State, events: seq<Event>): State
    requires Possible(s, events)
    decreases |events|
  {
    if events == [] then s else After(Apply(s, events[0]), events[1..])
  }

  lemma {:induction false} RunKeeps(s: State, events: seq<Event>)
    requires All(s) && Possible(s, events)
    ensures All(After(s, events))
    decreases |events|
  {
    if events != [] {
      EventKeeps(s, events[0]);
      RunKeeps(Apply(s, events[0]), events[1..]);
    }
  }

  lemma EmptyIsOk(top: Node)
    requires Lt(HEAD, top)
    ensures All(Empty(top))
  {
    EmptyHolds(top);
    forall l | 0 <= l < MAX_HEIGHT
      ensures Inv(Empty(top).levels[l], LinksAt(Empty(top).ins, l), top)
    {
      assert LinksAt(Empty(top).ins, l) == map[];
    }
  }

  ghost predicate Reachable(s: State) {
    exists events: seq<Event> :: Lt(HEAD, s.top) && Possible(Empty(s.top), events) && s == After(Empty(s.top), events)
  }

  lemma ReachableHolds(s: State)
    requires Reachable(s)
    ensures All(s)
  {
    var events: seq<Event> :| Lt(HEAD, s.top) && Possible(Empty(s.top), events) && s == After(Empty(s.top), events);
    EmptyIsOk(s.top);
    RunKeeps(Empty(s.top), events);
  }

  // ----- What the skiplist promises -----

  /** At every moment, each level is one ascending chain from head to tail through exactly what is linked there. */
  lemma LevelsAreOrdered(s: State, l: nat) returns (path: seq<Node>)
    requires Reachable(s) && l < MAX_HEIGHT
    ensures |s.levels| == MAX_HEIGHT && path != [] && path[0] == HEAD && path[|path| - 1] == s.top && Path(s.levels[l].next, path)
    ensures forall c :: c in path <==> c in s.levels[l].on
  {
    ReachableHolds(s);
    assert Inv(s.levels[l], LinksAt(s.ins, l), s.top);
    path := PathBetween(s.levels[l], s.top, HEAD, s.top);
  }

  /** A level is part of every level below it. */
  lemma LevelsAreNested(s: State, l: nat, m: nat)
    requires Reachable(s) && l < m < MAX_HEIGHT
    ensures |s.levels| == MAX_HEIGHT && s.levels[m].on <= s.levels[l].on
  {
    ReachableHolds(s);
  }

  /** No step unlinks anything. */
  lemma NothingIsLost(s: State, e: Event)
    requires Reachable(s) && Enabled(s, e)
    ensures Grown(s.levels, Apply(s, e).levels)
  {
    ReachableHolds(s);
    if e.Run? && s.ins[e.t].pc.Linking? && s.ins[e.t].pc.link.stage != Done {
      LinkLevels(s, e.t, LinkStep(s, e.t));
    }
  }

  /** An addition that comes to its end has linked its node on every level of its tower. */
  lemma AddedIsLinked(s: State, t: Thread, tall: nat)
    requires Reachable(s) && CanRun(s, t, tall) && s.ins[t].pc.Linking? && Run1(s, t, tall).ins[t].pc.Idle?
    ensures forall l :: 0 <= l < s.ins[t].pc.tall ==> s.ins[t].pc.link.node in Run1(s, t, tall).levels[l].on
  {
    ReachableHolds(s);
    DoneIsOn(s, t);
  }

  /** When no insertion is between its two swaps at a level, prev mirrors next there. */
  lemma QuietLevelMirrors(s: State, l: nat, a: Node)
    requires Reachable(s) && l < MAX_HEIGHT
    requires forall t :: t in s.ins && s.ins[t].pc.Linking? && s.ins[t].pc.level == l ==> s.ins[t].pc.link.stage != Post
    requires |s.levels| == MAX_HEIGHT && a in s.levels[l].on && a != s.top
    ensures a in s.levels[l].next && s.levels[l].next[a] in s.levels[l].prev && s.levels[l].prev[s.levels[l].next[a]] == a
  {
    ReachableHolds(s);
    assert Inv(s.levels[l], LinksAt(s.ins, l), s.top);
    QuietMirrors(s.levels[l], LinksAt(s.ins, l), s.top, a);
  }

  /** No inserter meets a missing node: each can always take its next step. */
  lemma NeverStuck(s: State, t: Thread, tall: nat)
    requires Reachable(s) && t in s.ins && !s.ins[t].pc.Idle? && 0 < tall <= MAX_HEIGHT
    ensures CanRun(s, t, tall)
    ensures s.ins[t].pc.New? || s.ins[t].pc.Linking? ==> forall l :: 0 <= l < MAX_HEIGHT ==> Whole(s.ins[t].spl[l])
  {
    ReachableHolds(s);
    var i := s.ins[t];
    assert InserterOk(s.levels, s.height, s.top, i) && KeyOk(s.levels, s.top, s.used, i.pc);
    if i.pc.New? || i.pc.Linking? {
      forall l | 0 <= l < MAX_HEIGHT
        ensures Whole(i.spl[l])
      {
        if l < i.height {
          assert SpliceOk(s.levels, i.spl, l);
        }
      }
    }
    match i.pc
    case Check(key, level) => CheckOk(s, t);
    case Search(key, level, at) => assert Inv(s.levels[level], LinksAt(s.ins, level), s.top);
    case Linking(n, level, _, link) =>
      assert Inv(s.levels[level], LinksAt(s.ins, level), s.top);
      assert LinksAt(s.ins, level)[t] == link;
      StageCanStep(s.levels[level], link, s.top);
    case _ =>
  }

  lemma StageCanStep(lv: Level, k: Link, top: Node)
    requires Chain(lv.on, lv.next, top) && Back(lv.on, lv.prev) && LinkOk(lv, k, top)
    ensures k.stage == Done || CanStep(lv, k)
  {
  }
}
