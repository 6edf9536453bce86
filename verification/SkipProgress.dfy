/**
  An addition to the skiplist gets done (internal/arenaskl/skl.go): an inserter that nobody disturbs
  finishes, wherever the others stand, and its key is then linked on every level of its tower.
 */
module SkipProgress {
  import opened Common
  import opened SkipLevel
  import opened Skiplist
  import SkipSearch

  predicate CanGo(s: State, t: Thread, tall: nat, n: nat)
    decreases n
  {
    n == 0 || (CanRun(s, t, tall) && CanGo(Run1(s, t, tall), t, tall, n - 1))
  }

  /** The state after n steps of inserter t, nobody else moving. */
  function Gone(s: State, t: Thread, tall: nat, n: nat): State
    requires CanGo(s, t, tall, n)
    decreases n
  {
    if n == 0 then s else Gone(Run1(s, t, tall), t, tall, n - 1)
  }

  function Gap(a: Node, b: Node): nat { if a.pos < b.pos then b.pos - a.pos else 0 }

  /** How far an addition is: searching level by level downwards, then linking level by level upwards. */
  function Levels(pc: Pc): nat {
    match pc
    case Idle => 0
    case Linking(tall, level, _, _) => if level < tall then 1 + tall - level else 1
    case New(_) => MAX_HEIGHT + 2
    case Search(_, level, _) => MAX_HEIGHT + 3 + level
    case Check(_, _) => 2 * MAX_HEIGHT + 4
    case Height(_) => 2 * MAX_HEIGHT + 5
  }

  /** The swap will find what it expects. */
  predicate WillSwap(lv: Level, k: Link) { k.p in lv.next && lv.next[k.p] == k.n }

  /** How many steps are left on a level; a swap that fails is followed by a search and one that does not. */
  function LinkLeft(lv: Level, k: Link): nat {
    match k.stage
    case Done => 0
    case Post => 1
    case Find(at) => 7 + Gap(at, k.node)
    case _ => StageLeft(k.stage) + if WillSwap(lv, k) then 0 else 7 + Gap(k.p, k.node)
  }

  function StageLeft(stage: Stage): nat {
    match stage
    case Init => 6
    case ReadPrev => 5
    case ReadNext(_) => 4
    case Help(_) => 3
    case _ => 2
  }

  function Steps(levels: seq<Level>, i: Inserter): nat {
    match i.pc
    case Check(_, level) => if level < i.height then i.height - level else 0
    case Search(key, _, at) => Gap(at, key)
    case Linking(_, level, _, link) => if level < |levels| then LinkLeft(levels[level], link) else 0
    case _ => 0
  }

  lemma LinkNears(lv: Level, k: Link)
    requires CanStep(lv, k) && k.p != k.node && (k.stage.Find? ==> Lt(k.stage.at, lv.next[k.stage.at]))
    ensures LinkLeft(LevelAfter(lv, k), LinkAfter(lv, k)) < LinkLeft(lv, k)
    ensures LinkAfter(lv, k).node == k.node
  {
  }

  /** A search goes upwards. */
  lemma SearchRises(lv: Level, links: map<Thread, Link>, top: Node, t: Thread)
    requires Inv(lv, links, top) && t in links && Lt(links[t].node, top)
    ensures links[t].p != links[t].node
    ensures links[t].stage.Find? ==> links[t].stage.at in lv.next && Lt(links[t].stage.at, lv.next[links[t].stage.at])
  {
    assert LinkOk(lv, links[t], top);
  }

  /** The height of the tower: as drawn already, or as it will be. */
  function Tall(pc: Pc, tall: nat): nat { if pc.Linking? then pc.tall else tall }

  /** What one step of inserter t does. */
  ghost predicate Nears(s: State, r: State, t: Thread, tall: nat) {
    && t in s.ins && t in r.ins && (!r.ins[t].pc.Idle? ==> Key(r.ins[t].pc) == Key(s.ins[t].pc) && Tall(r.ins[t].pc, tall) == Tall(s.ins[t].pc, tall))
    && var i, j := s.ins[t], r.ins[t];
      Levels(j.pc) < Levels(i.pc) || (Levels(j.pc) == Levels(i.pc) && Steps(r.levels, j) < Steps(s.levels, i))
  }

  lemma SearchNears(s: State, t: Thread, tall: nat)
    requires t in s.ins && CanRun(s, t, tall) && s.ins[t].pc.Search? && InserterOk(s.levels, s.height, s.top, s.ins[t])
    requires var pc := s.ins[t].pc; Chain(s.levels[pc.level].on, s.levels[pc.level].next, s.top) && Lt(pc.key, s.top)
    ensures Nears(s, Run1(s, t, tall), t, tall)
  {
    hide Tower, Brackets, Blank;
  }

  lemma FindNears(s: State, t: Thread, tall: nat)
    requires t in s.ins && CanRun(s, t, tall) && !s.ins[t].pc.Search? && !s.ins[t].pc.Linking? && InserterOk(s.levels, s.height, s.top, s.ins[t])
    ensures Nears(s, Run1(s, t, tall), t, tall)
  {
    hide Tower, Brackets, Blank;
  }

  lemma LinkingNears(s: State, t: Thread, tall: nat)
    requires t in s.ins && CanRun(s, t, tall) && s.ins[t].pc.Linking?
    requires var pc := s.ins[t].pc;
      pc.link.stage != Done ==> LinkLeft(LevelAfter(s.levels[pc.level], pc.link), LinkAfter(s.levels[pc.level], pc.link)) < LinkLeft(s.levels[pc.level], pc.link)
    requires var pc := s.ins[t].pc; pc.link.stage != Done ==> LinkAfter(s.levels[pc.level], pc.link).node == pc.link.node
    ensures Nears(s, Run1(s, t, tall), t, tall)
  {
    hide LinkLeft, LevelAfter, LinkAfter, CanStep;
  }

  lemma StepNears(s: State, t: Thread, tall: nat)
    requires All(s) && t in s.ins && CanRun(s, t, tall)
    ensures Nears(s, Run1(s, t, tall), t, tall)
  {
    hide Nears, Run1, LinkLeft, LevelAfter, LinkAfter, Tower, Brackets, Blank, Nested, OnlyUsed;
    var i := s.ins[t];
    assert InserterOk(s.levels, s.height, s.top, i) && KeyOk(s.levels, s.top, s.used, i.pc);
    match i.pc
    case Search(key, level, at) =>
      assert Inv(s.levels[level], LinksAt(s.ins, level), s.top);
      SearchNears(s, t, tall);
    case Linking(n, level, _, link) =>
      assert Inv(s.levels[level], LinksAt(s.ins, level), s.top);
      assert LinksAt(s.ins, level)[t] == link;
      if link.stage != Done {
        SearchRises(s.levels[level], LinksAt(s.ins, level), s.top, t);
        LinkNears(s.levels[level], link);
      }
      LinkingNears(s, t, tall);
    case _ => FindNears(s, t, tall);
  }

  /** An addition finishes if nobody disturbs it, with its key linked on every level of its tower. */
  lemma {:induction false} AddFinishes(s: State, t: Thread, tall: nat) returns (n: nat)
    requires Reachable(s) && t in s.ins && !s.ins[t].pc.Idle? && 0 < tall <= MAX_HEIGHT
    ensures CanGo(s, t, tall, n)
    ensures var r := Gone(s, t, tall, n);
      && t in r.ins && r.ins[t].pc.Idle? && |r.levels| == MAX_HEIGHT && Tall(s.ins[t].pc, tall) <= MAX_HEIGHT && Key(s.ins[t].pc).Some?
      && forall l :: 0 <= l < Tall(s.ins[t].pc, tall) ==> Key(s.ins[t].pc).value in r.levels[l].on
    decreases Levels(s.ins[t].pc), Steps(s.levels, s.ins[t])
  {
    hide Reachable, CanRun, Run1, Levels, Steps, All;
    NeverStuck(s, t, tall);
    ReachableHolds(s);
    StepNears(s, t, tall);
    SkipSearch.Next(s, Run(t, tall));
    var r := Run1(s, t, tall);
    n := 1;
    if r.ins[t].pc.Idle? {
      LastStep(s, t, tall);
    } else {
      var m := AddFinishes(r, t, tall);
      n := m + 1;
    }
  }

  lemma LastStep(s: State, t: Thread, tall: nat)
    requires Reachable(s) && t in s.ins && CanRun(s, t, tall) && Run1(s, t, tall).ins[t].pc.Idle?
    ensures var r, pc := Run1(s, t, tall), s.ins[t].pc;
      && |r.levels| == MAX_HEIGHT && pc.Linking? && pc.tall <= MAX_HEIGHT && forall l :: 0 <= l < pc.tall ==> pc.link.node in r.levels[l].on
  {
    AddedIsLinked(s, t, tall);
  }
}
