/**
  One level of the skiplist (internal/arenaskl/skl.go): a doubly linked list that any number of
  threads insert into with compare-and-swap, each step of every thread taken on its own. Keys are
  given by their place in the key order; the head is Node(0) and the tail lies above every key.
 */
module SkipLevel {

  datatype Node = Node(pos: int)
  datatype Thread = Thread(n: nat)

  /** on lists the nodes linked so far, head and tail included. */
  datatype Level = Level(on: set<Node>, next: map<Node, Node>, prev: map<Node, Node>)

  datatype Stage =
    | Init                 // store the new node's links
    | ReadPrev             // load next.prev
    | ReadNext(seen: Node) // it was not prev: load prev.next
    | Help(seen: Node)     // prev.next is next: swing next.prev from seen to prev
    | Cas                  // link the node into prev.next
    | Post                 // swing next.prev to the node
    | Find(at: Node)       // the swap failed: search on from prev
    | Done

  /** A thread inserting a node at this level between p and n. */
  datatype Link = Link(node: Node, p: Node, n: Node, stage: Stage)

  predicate Lt(a: Node, b: Node) { a.pos < b.pos }
  predicate Le(a: Node, b: Node) { a.pos <= b.pos }

  const HEAD := Node(0)

  // ----- The steps -----

  predicate CanStep(lv: Level, k: Link) {
    match k.stage
    case Init => true
    case ReadPrev => k.n in lv.prev
    case ReadNext(_) => k.p in lv.next
    case Help(_) => k.n in lv.prev
    case Cas => k.p in lv.next
    case Post => k.n in lv.prev
    case Find(at) => at in lv.next
    case Done => false
  }

  function LevelAfter(lv: Level, k: Link): Level
    requires CanStep(lv, k)
  {
    match k.stage
    case Init => lv.(next := lv.next[k.node := k.n], prev := lv.prev[k.node := k.p])
    case Help(seen) => if lv.prev[k.n] == seen then lv.(prev := lv.prev[k.n := k.p]) else lv
    case Cas => if lv.next[k.p] == k.n then Level(lv.on + {k.node}, lv.next[k.p := k.node], lv.prev) else lv
    case Post => if lv.prev[k.n] == k.p then lv.(prev := lv.prev[k.n := k.node]) else lv
    case _ => lv
  }

  function LinkAfter(lv: Level, k: Link): Link
    requires CanStep(lv, k)
  {
    match k.stage
    case Init => k.(stage := ReadPrev)
    case ReadPrev => k.(stage := if lv.prev[k.n] == k.p then Cas else ReadNext(lv.prev[k.n]))
    case ReadNext(seen) => k.(stage := if lv.next[k.p] == k.n then Help(seen) else Cas)
    case Help(_) => k.(stage := Cas)
    case Cas => k.(stage := if lv.next[k.p] == k.n then Post else Find(k.p))
    case Post => k.(stage := Done)
    case Find(at) =>
      var next := lv.next[at];
      if Lt(k.node, next) then Link(k.node, at, next, Init) else k.(stage := Find(next))
  }

  // ----- The invariant -----

  /** Every node leads to the next greater one. */
  ghost predicate Chain(on: set<Node>, next: map<Node, Node>, top: Node) {
    && HEAD in on && top in on && (forall a :: a in on ==> Le(HEAD, a) && Le(a, top))
    && (forall a :: a in on && a != top ==> a in next && next[a] in on && Lt(a, next[a]))
    && (forall a, c :: a in on && a != top && c in on && Lt(a, c) ==> Le(next[a], c))
  }

  /** Back links point to linked nodes below. */
  ghost predicate Back(on: set<Node>, prev: map<Node, Node>) {
    forall b :: b in on && b != HEAD ==> b in prev && prev[b] in on && Lt(prev[b], b)
  }

  predicate Fixing(k: Link, a: Node, b: Node, seen: Node) {
    k.stage == Post && k.node == a && k.n == b && k.p == seen
  }

  ghost predicate Fixed(links: map<Thread, Link>, a: Node, b: Node, seen: Node) {
    exists t :: t in links && Fixing(links[t], a, b, seen)
  }

  /** A back link that lags behind will be set by the thread that linked the node it misses. */
  ghost predicate Mirror(lv: Level, links: map<Thread, Link>, top: Node)
    requires Chain(lv.on, lv.next, top) && Back(lv.on, lv.prev)
  {
    forall a :: a in lv.on && a != top ==> lv.prev[lv.next[a]] == a || Fixed(links, a, lv.next[a], lv.prev[lv.next[a]])
  }

  /** What a thread knows at each stage. */
  ghost predicate LinkOk(lv: Level, k: Link, top: Node)
    requires Chain(lv.on, lv.next, top) && Back(lv.on, lv.prev)
  {
    && k.p in lv.on && k.n in lv.on && Lt(k.p, k.node) && Lt(k.node, k.n)
    && (k.node in lv.on <==> k.stage == Post || k.stage == Done)
    && (k.stage != Init && !k.stage.Find? && k.stage != Post && k.stage != Done ==> Own(lv, k))
    && match k.stage
       case ReadNext(seen) => seen != k.p && Le(seen, lv.prev[k.n])
       case Help(seen) => Lt(seen, k.p) && Le(seen, lv.prev[k.n])
       case Cas => lv.next[k.p] == k.n ==> lv.prev[k.n] == k.p
       case Post => Le(k.p, lv.prev[k.n])
       case Find(at) => at in lv.on && Lt(at, k.node)
       case _ => true
  }

  /** The node's own links, not yet seen by others. */
  predicate Own(lv: Level, k: Link) {
    k.node in lv.next && k.node in lv.prev && lv.next[k.node] == k.n && lv.prev[k.node] == k.p
  }

  /** How two threads at work on the same neighbourhood stand to each other. */
  predicate Fresh(k: Link, u: Link) {
    u.stage == Post && u.n == k.n ==>
      // what was read of next.prev is not older than the fix that is pending
      && ((k.stage.ReadNext? || k.stage.Help?) && u.node == k.p ==> Le(u.p, k.stage.seen))
      // what was linked since prev.next was read was linked behind prev
      && (k.stage.Help? && Lt(k.p, u.node) ==> Le(k.p, u.p))
      && (k.stage == Post && Lt(k.node, u.node) ==> Le(k.node, u.p))
  }

  ghost predicate Links(lv: Level, links: map<Thread, Link>, top: Node)
    requires Chain(lv.on, lv.next, top) && Back(lv.on, lv.prev)
  {
    && (forall t :: t in links ==> LinkOk(lv, links[t], top))
    && (forall t, u :: t in links && u in links && t != u ==> links[t].node != links[u].node && Fresh(links[t], links[u]))
  }

  ghost predicate Inv(lv: Level, links: map<Thread, Link>, top: Node) {
    Chain(lv.on, lv.next, top) && Back(lv.on, lv.prev) && Mirror(lv, links, top) && Links(lv, links, top)
  }

  // ----- What a step leaves for the other threads -----

  /** The predecessor of n is the greatest linked node below it. */
  lemma PrevBelow(lv: Level, top: Node, p: Node, n: Node)
    requires Chain(lv.on, lv.next, top) && Back(lv.on, lv.prev) && p in lv.on && n in lv.on && Lt(p, n)
    ensures p != top && Le(lv.next[p], n) && n != HEAD
    ensures lv.next[p] == n ==> Le(lv.prev[n], p)
  {
    assert Lt(p, lv.prev[n]) ==> Le(lv.next[p], lv.prev[n]);
  }

  lemma InitOthers(lv: Level, k: Link, u: Link, top: Node)
    requires Chain(lv.on, lv.next, top) && Back(lv.on, lv.prev) && k.stage == Init && k.node !in lv.on
    requires LinkOk(lv, u, top) && u.node != k.node
    ensures var lv' := LevelAfter(lv, k); Chain(lv'.on, lv'.next, top) && Back(lv'.on, lv'.prev) && LinkOk(lv', u, top)
  {
  }

  lemma HelpOthers(lv: Level, k: Link, u: Link, top: Node)
    requires Chain(lv.on, lv.next, top) && Back(lv.on, lv.prev) && k.stage.Help? && LinkOk(lv, k, top)
    requires LinkOk(lv, u, top) && u.node != k.node
    ensures var lv' := LevelAfter(lv, k); Chain(lv'.on, lv'.next, top) && Back(lv'.on, lv'.prev) && LinkOk(lv', u, top)
  {
    PrevBelow(lv, top, k.p, k.n);
    PrevBelow(lv, top, u.p, u.n);
  }

  lemma PostOthers(lv: Level, k: Link, u: Link, top: Node)
    requires Chain(lv.on, lv.next, top) && Back(lv.on, lv.prev) && k.stage == Post && LinkOk(lv, k, top)
    requires LinkOk(lv, u, top) && u.node != k.node
    ensures var lv' := LevelAfter(lv, k); Chain(lv'.on, lv'.next, top) && Back(lv'.on, lv'.prev) && LinkOk(lv', u, top)
  {
    PrevBelow(lv, top, k.node, k.n);
    PrevBelow(lv, top, u.p, u.n);
  }

  /** Putting a node between two neighbours keeps the order. */
  lemma InsertChain(on: set<Node>, next: map<Node, Node>, top: Node, p: Node, node: Node, n: Node)
    requires Chain(on, next, top) && p in on && n in on && Lt(p, node) && Lt(node, n) && next[p] == n
    requires node !in on && node in next && next[node] == n
    ensures Chain(on + {node}, next[p := node], top)
  {
    var on', next' := on + {node}, next[p := node];
    forall a, c | a in on' && a != top && c in on' && Lt(a, c)
      ensures Le(next'[a], c)
    {
      if a != p && a != node && c == node {
        assert Lt(a, p) || Lt(p, a);
        assert Lt(p, a) ==> Le(next[p], a);
        assert Lt(a, p) ==> Le(next[a], p);
      }
    }
  }

  lemma CasChain(lv: Level, k: Link, top: Node)
    requires Chain(lv.on, lv.next, top) && Back(lv.on, lv.prev) && k.stage == Cas && LinkOk(lv, k, top) && lv.next[k.p] == k.n
    ensures var lv' := LevelAfter(lv, k); Chain(lv'.on, lv'.next, top) && Back(lv'.on, lv'.prev)
  {
    PrevBelow(lv, top, k.p, k.n);
    InsertChain(lv.on, lv.next, top, k.p, k.node, k.n);
  }

  lemma CasOthers(lv: Level, k: Link, u: Link, top: Node)
    requires Chain(lv.on, lv.next, top) && Back(lv.on, lv.prev) && k.stage == Cas && LinkOk(lv, k, top) && lv.next[k.p] == k.n
    requires LinkOk(lv, u, top) && u.node != k.node
    ensures var lv' := LevelAfter(lv, k); Chain(lv'.on, lv'.next, top) && Back(lv'.on, lv'.prev) && LinkOk(lv', u, top)
  {
    CasChain(lv, k, top);
    PrevBelow(lv, top, u.p, u.n);
  }

  // ----- A thread's own next stage -----

  lemma OwnInit(lv: Level, k: Link, top: Node)
    requires Chain(lv.on, lv.next, top) && Back(lv.on, lv.prev) && LinkOk(lv, k, top) && CanStep(lv, k)
    requires k.stage == Init
    ensures var lv' := LevelAfter(lv, k); Chain(lv'.on, lv'.next, top) && Back(lv'.on, lv'.prev) && LinkOk(lv', LinkAfter(lv, k), top)
  {
  }

  lemma OwnReadPrev(lv: Level, k: Link, top: Node)
    requires Chain(lv.on, lv.next, top) && Back(lv.on, lv.prev) && LinkOk(lv, k, top) && CanStep(lv, k)
    requires k.stage.ReadPrev?
    ensures var lv' := LevelAfter(lv, k); Chain(lv'.on, lv'.next, top) && Back(lv'.on, lv'.prev) && LinkOk(lv', LinkAfter(lv, k), top)
  {
    PrevBelow(lv, top, k.p, k.n);
  }

  lemma OwnReadNext(lv: Level, k: Link, top: Node)
    requires Chain(lv.on, lv.next, top) && Back(lv.on, lv.prev) && LinkOk(lv, k, top) && CanStep(lv, k)
    requires k.stage.ReadNext?
    ensures var lv' := LevelAfter(lv, k); Chain(lv'.on, lv'.next, top) && Back(lv'.on, lv'.prev) && LinkOk(lv', LinkAfter(lv, k), top)
  {
    PrevBelow(lv, top, k.p, k.n);
  }

  lemma OwnFind(lv: Level, k: Link, top: Node)
    requires Chain(lv.on, lv.next, top) && Back(lv.on, lv.prev) && LinkOk(lv, k, top) && CanStep(lv, k)
    requires k.stage.Find?
    ensures var lv' := LevelAfter(lv, k); Chain(lv'.on, lv'.next, top) && Back(lv'.on, lv'.prev) && LinkOk(lv', LinkAfter(lv, k), top)
  {
    var at := k.stage.at;
    var next := lv.next[at];
    assert at != top && next in lv.on && next != k.node;
    if Lt(k.node, next) {
      assert LinkAfter(lv, k) == Link(k.node, at, next, Init);
    } else {
      assert LinkAfter(lv, k) == Link(k.node, k.p, k.n, Find(next));
    }
  }

  lemma OwnHelp(lv: Level, k: Link, top: Node)
    requires Chain(lv.on, lv.next, top) && Back(lv.on, lv.prev) && LinkOk(lv, k, top) && CanStep(lv, k)
    requires k.stage.Help? && (lv.prev[k.n] != k.stage.seen && lv.next[k.p] == k.n ==> lv.prev[k.n] == k.p)
    ensures var lv' := LevelAfter(lv, k); Chain(lv'.on, lv'.next, top) && Back(lv'.on, lv'.prev) && LinkOk(lv', LinkAfter(lv, k), top)
  {
    PrevBelow(lv, top, k.p, k.n);
  }

  lemma OwnCas(lv: Level, k: Link, top: Node)
    requires Chain(lv.on, lv.next, top) && Back(lv.on, lv.prev) && LinkOk(lv, k, top) && CanStep(lv, k)
    requires k.stage == Cas
    ensures var lv' := LevelAfter(lv, k); Chain(lv'.on, lv'.next, top) && Back(lv'.on, lv'.prev) && LinkOk(lv', LinkAfter(lv, k), top)
  {
    if lv.next[k.p] == k.n {
      CasChain(lv, k, top);
    }
  }

  lemma OwnPost(lv: Level, k: Link, top: Node)
    requires Chain(lv.on, lv.next, top) && Back(lv.on, lv.prev) && LinkOk(lv, k, top) && CanStep(lv, k)
    requires k.stage == Post
    ensures var lv' := LevelAfter(lv, k); Chain(lv'.on, lv'.next, top) && Back(lv'.on, lv'.prev) && LinkOk(lv', LinkAfter(lv, k), top)
  {
    PrevBelow(lv, top, k.node, k.n);
  }

  lemma OwnAfter(lv: Level, links: map<Thread, Link>, t: Thread, top: Node)
    requires Inv(lv, links, top) && t in links && CanStep(lv, links[t])
    ensures var lv' := LevelAfter(lv, links[t]);
      Chain(lv'.on, lv'.next, top) && Back(lv'.on, lv'.prev) && LinkOk(lv', LinkAfter(lv, links[t]), top)
  {
    var k := links[t];
    assert LinkOk(lv, k, top);
    match k.stage
    case Init => OwnInit(lv, k, top);
    case Cas => OwnCas(lv, k, top);
    case Help(seen) =>
      HelpSettles(lv, links, t, top);
      PrevBelow(lv, top, k.p, k.n);
      OwnHelp(lv, k, top);
    case Post => OwnPost(lv, k, top);
    case ReadPrev => OwnReadPrev(lv, k, top);
    case ReadNext(_) => OwnReadNext(lv, k, top);
    case Find(_) => OwnFind(lv, k, top);
  }

  /** After helping, the back link is right as long as the two nodes are still neighbours. */
  lemma HelpSettles(lv: Level, links: map<Thread, Link>, t: Thread, top: Node)
    requires Inv(lv, links, top) && t in links && links[t].stage.Help?
    ensures var k := links[t]; k.n in lv.prev && k.p in lv.next && (lv.prev[k.n] != k.stage.seen && lv.next[k.p] == k.n ==> lv.prev[k.n] == k.p)
  {
    var k := links[t];
    assert LinkOk(lv, k, top);
    PrevBelow(lv, top, k.p, k.n);
    if lv.next[k.p] == k.n && lv.prev[k.n] != k.p {
      var u :| u in links && Fixing(links[u], k.p, k.n, lv.prev[k.n]);
      assert u != t && Fresh(k, links[u]) && LinkOk(lv, links[u], top);
    }
  }

  /** Any other thread's knowledge survives the step. */
  lemma OthersAfter(lv: Level, k: Link, u: Link, top: Node)
    requires Chain(lv.on, lv.next, top) && Back(lv.on, lv.prev) && LinkOk(lv, k, top) && CanStep(lv, k)
    requires LinkOk(lv, u, top) && u.node != k.node
    ensures var lv' := LevelAfter(lv, k); Chain(lv'.on, lv'.next, top) && Back(lv'.on, lv'.prev) && LinkOk(lv', u, top)
  {
    match k.stage
    case Init => InitOthers(lv, k, u, top);
    case Cas =>
      if lv.next[k.p] == k.n {
        CasOthers(lv, k, u, top);
      }
    case Help(_) => HelpOthers(lv, k, u, top);
    case Post => PostOthers(lv, k, u, top);
    case _ =>
  }

  lemma FreshAfter(lv: Level, k: Link, u: Link, top: Node)
    requires Chain(lv.on, lv.next, top) && Back(lv.on, lv.prev) && LinkOk(lv, k, top) && CanStep(lv, k)
    requires LinkOk(lv, u, top) && u.node != k.node && Fresh(k, u) && Fresh(u, k)
    ensures Fresh(LinkAfter(lv, k), u) && Fresh(u, LinkAfter(lv, k))
  {
    PrevBelow(lv, top, k.p, k.n);
    match k.stage
    case ReadPrev => FreshRead(lv, k, u, top);
    case ReadNext(_) => FreshHelp(lv, k, u, top);
    case Cas => FreshCas(lv, k, u, top);
    case _ =>
  }

  lemma FreshRead(lv: Level, k: Link, u: Link, top: Node)
    requires Chain(lv.on, lv.next, top) && Back(lv.on, lv.prev) && LinkOk(lv, k, top) && CanStep(lv, k)
    requires LinkOk(lv, u, top) && u.node != k.node && k.stage.ReadPrev?
    ensures Fresh(LinkAfter(lv, k), u) && Fresh(u, LinkAfter(lv, k))
  {
  }

  lemma FreshHelp(lv: Level, k: Link, u: Link, top: Node)
    requires Chain(lv.on, lv.next, top) && Back(lv.on, lv.prev) && LinkOk(lv, k, top) && CanStep(lv, k)
    requires LinkOk(lv, u, top) && u.node != k.node && k.stage.ReadNext? && Fresh(k, u)
    ensures Fresh(LinkAfter(lv, k), u) && Fresh(u, LinkAfter(lv, k))
  {
    PrevBelow(lv, top, k.p, k.n);
    assert u.stage == Post && Lt(k.p, u.node) ==> Le(lv.next[k.p], u.node);
  }

  lemma FreshCas(lv: Level, k: Link, u: Link, top: Node)
    requires Chain(lv.on, lv.next, top) && Back(lv.on, lv.prev) && LinkOk(lv, k, top) && CanStep(lv, k)
    requires LinkOk(lv, u, top) && u.node != k.node && k.stage == Cas
    ensures Fresh(LinkAfter(lv, k), u) && Fresh(u, LinkAfter(lv, k))
  {
    PrevBelow(lv, top, k.p, k.n);
    if lv.next[k.p] == k.n == u.n {
      assert u.stage == Post && Lt(k.p, u.node) ==> Le(lv.next[k.p], u.node);
      assert Lt(k.p, u.p) ==> Le(lv.next[k.p], u.p);
    }
  }

  lemma LinksAfter(lv: Level, links: map<Thread, Link>, t: Thread, top: Node)
    requires Inv(lv, links, top) && t in links && CanStep(lv, links[t])
    ensures var lv' := LevelAfter(lv, links[t]);
      Chain(lv'.on, lv'.next, top) && Back(lv'.on, lv'.prev) && Links(lv', links[t := LinkAfter(lv, links[t])], top)
  {
    hide LinkOk, Fresh;
    var k := links[t];
    var lv', links' := LevelAfter(lv, k), links[t := LinkAfter(lv, k)];
    OwnAfter(lv, links, t, top);
    forall u | u in links && u != t
      ensures LinkOk(lv', links[u], top) && links[u].node != k.node && Fresh(links'[t], links[u]) && Fresh(links[u], links'[t])
    {
      PairAfter(lv, links, t, u, top);
    }
    assert links'[t].node == k.node;
  }

  lemma PairAfter(lv: Level, links: map<Thread, Link>, t: Thread, u: Thread, top: Node)
    requires Inv(lv, links, top) && t in links && u in links && t != u && CanStep(lv, links[t])
    requires var lv' := LevelAfter(lv, links[t]); Chain(lv'.on, lv'.next, top) && Back(lv'.on, lv'.prev)
    ensures LinkOk(LevelAfter(lv, links[t]), links[u], top) && links[u].node != links[t].node
    ensures Fresh(LinkAfter(lv, links[t]), links[u]) && Fresh(links[u], LinkAfter(lv, links[t]))
  {
    var k := links[t];
    assert LinkOk(lv, links[u], top) && LinkOk(lv, k, top) && Fresh(k, links[u]) && Fresh(links[u], k);
    OthersAfter(lv, k, links[u], top);
    FreshAfter(lv, k, links[u], top);
  }

  // ----- Back links -----

  lemma FixedMoves(links: map<Thread, Link>, t: Thread, k: Link, a: Node, b: Node, seen: Node)
    requires Fixed(links, a, b, seen) && (t in links && Fixing(links[t], a, b, seen) ==> Fixing(k, a, b, seen))
    ensures Fixed(links[t := k], a, b, seen)
  {
    var u :| u in links && Fixing(links[u], a, b, seen);
    var moved := links[t := k];
    assert u in moved && Fixing(moved[u], a, b, seen);
  }

  /** A step that changes no link and does not finish an insertion. */
  lemma MirrorStays(lv: Level, lv': Level, links: map<Thread, Link>, t: Thread, k: Link, top: Node)
    requires Inv(lv, links, top) && t in links && links[t].stage != Post
    requires lv'.on == lv.on && Chain(lv'.on, lv'.next, top) && Back(lv'.on, lv'.prev)
    requires forall a :: a in lv.on && a != top ==> lv'.next[a] == lv.next[a] && lv'.prev[lv.next[a]] == lv.prev[lv.next[a]]
    ensures Mirror(lv', links[t := k], top)
  {
    hide LinkOk;
    forall a | a in lv.on && a != top && lv.prev[lv.next[a]] != a
      ensures Fixed(links[t := k], a, lv.next[a], lv.prev[lv.next[a]])
    {
      FixedMoves(links, t, k, a, lv.next[a], lv.prev[lv.next[a]]);
    }
  }

  lemma MirrorHelp(lv: Level, links: map<Thread, Link>, t: Thread, top: Node)
    requires Inv(lv, links, top) && t in links && links[t].stage.Help? && CanStep(lv, links[t])
    requires var lv' := LevelAfter(lv, links[t]); Chain(lv'.on, lv'.next, top) && Back(lv'.on, lv'.prev)
    ensures Mirror(LevelAfter(lv, links[t]), links[t := LinkAfter(lv, links[t])], top)
  {
    var k := links[t];
    var lv', k' := LevelAfter(lv, k), LinkAfter(lv, k);
    assert LinkOk(lv, k, top);
    forall a | a in lv.on && a != top && lv'.prev[lv.next[a]] != a
      ensures Fixed(links[t := k'], a, lv.next[a], lv'.prev[lv.next[a]])
    {
      var b := lv.next[a];
      if b == k.n && lv.prev[k.n] == k.stage.seen {
        HelpIsRight(lv, links, t, a, top);
      }
      FixedMoves(links, t, k', a, b, lv.prev[b]);
    }
  }

  /** A back link that is helped forward goes to the neighbour. */
  lemma HelpIsRight(lv: Level, links: map<Thread, Link>, t: Thread, a: Node, top: Node)
    requires Inv(lv, links, top) && t in links && links[t].stage.Help? && a in lv.on && a != top
    requires lv.next[a] == links[t].n && lv.prev[links[t].n] == links[t].stage.seen
    ensures a == links[t].p
  {
    var k := links[t];
    assert LinkOk(lv, k, top);
    PrevBelow(lv, top, k.p, k.n);
    assert Lt(a, k.p) ==> Le(lv.next[a], k.p);
    assert !Lt(k.p, a);
  }

  lemma MirrorCas(lv: Level, links: map<Thread, Link>, t: Thread, top: Node)
    requires Inv(lv, links, top) && t in links && links[t].stage == Cas && CanStep(lv, links[t]) && lv.next[links[t].p] == links[t].n
    requires var lv' := LevelAfter(lv, links[t]); Chain(lv'.on, lv'.next, top) && Back(lv'.on, lv'.prev)
    ensures Mirror(LevelAfter(lv, links[t]), links[t := LinkAfter(lv, links[t])], top)
  {
    var k := links[t];
    var lv', k' := LevelAfter(lv, k), LinkAfter(lv, k);
    var links' := links[t := k'];
    assert LinkOk(lv, k, top);
    forall a | a in lv'.on && a != top && lv'.prev[lv'.next[a]] != a
      ensures Fixed(links', a, lv'.next[a], lv'.prev[lv'.next[a]])
    {
      if a == k.node {
        assert t in links' && Fixing(links'[t], a, k.n, k.p);
      } else {
        FixedMoves(links, t, k', a, lv.next[a], lv.prev[lv.next[a]]);
      }
    }
  }

  lemma MirrorPost(lv: Level, links: map<Thread, Link>, t: Thread, top: Node)
    requires Inv(lv, links, top) && t in links && links[t].stage == Post && CanStep(lv, links[t])
    requires var lv' := LevelAfter(lv, links[t]); Chain(lv'.on, lv'.next, top) && Back(lv'.on, lv'.prev)
    ensures Mirror(LevelAfter(lv, links[t]), links[t := LinkAfter(lv, links[t])], top)
  {
    var k := links[t];
    var lv', k' := LevelAfter(lv, k), LinkAfter(lv, k);
    assert LinkOk(lv, k, top);
    forall a | a in lv.on && a != top && lv'.prev[lv.next[a]] != a
      ensures Fixed(links[t := k'], a, lv.next[a], lv'.prev[lv.next[a]])
    {
      var b := lv.next[a];
      if b == k.n && lv.prev[k.n] == k.p {
        PostIsRight(lv, links, t, a, top);
      }
      FixedMoves(links, t, k', a, b, lv.prev[b]);
    }
  }

  lemma PostIsRight(lv: Level, links: map<Thread, Link>, t: Thread, a: Node, top: Node)
    requires Inv(lv, links, top) && t in links && links[t].stage == Post && a in lv.on && a != top
    requires lv.next[a] == links[t].n && lv.prev[links[t].n] == links[t].p
    ensures a == links[t].node
  {
    var k := links[t];
    assert LinkOk(lv, k, top);
    PrevBelow(lv, top, k.node, k.n);
    assert Lt(a, k.node) ==> Le(lv.next[a], k.node);
    assert !Lt(k.node, a);
  }

  /** Every step of every thread keeps the level in order. */
  lemma StepKeeps(lv: Level, links: map<Thread, Link>, t: Thread, top: Node)
    requires Inv(lv, links, top) && t in links && CanStep(lv, links[t])
    ensures Inv(LevelAfter(lv, links[t]), links[t := LinkAfter(lv, links[t])], top)
  {
    var k := links[t];
    LinksAfter(lv, links, t, top);
    assert LinkOk(lv, k, top);
    match k.stage
    case Cas =>
      if lv.next[k.p] == k.n {
        MirrorCas(lv, links, t, top);
      } else {
        MirrorStays(lv, lv, links, t, LinkAfter(lv, k), top);
      }
    case Help(_) => MirrorHelp(lv, links, t, top);
    case Post => MirrorPost(lv, links, t, top);
    case Init => MirrorStays(lv, LevelAfter(lv, k), links, t, LinkAfter(lv, k), top);
    case ReadPrev => MirrorStays(lv, lv, links, t, LinkAfter(lv, k), top);
    case ReadNext(_) => MirrorStays(lv, lv, links, t, LinkAfter(lv, k), top);
    case Find(_) => MirrorStays(lv, lv, links, t, LinkAfter(lv, k), top);
  }

  /** A thread starts at this level with neighbours that bracket its key. */
  lemma JoinKeeps(lv: Level, links: map<Thread, Link>, t: Thread, k: Link, top: Node)
    requires Inv(lv, links, top) && t !in links && k.stage == Init && LinkOk(lv, k, top)
    requires forall u :: u in links ==> links[u].node != k.node
    ensures Inv(lv, links[t := k], top)
  {
    JoinLinks(lv, links, t, k, top);
    forall a | a in lv.on && a != top && lv.prev[lv.next[a]] != a
      ensures Fixed(links[t := k], a, lv.next[a], lv.prev[lv.next[a]])
    {
      FixedMoves(links, t, k, a, lv.next[a], lv.prev[lv.next[a]]);
    }
  }

  lemma JoinLinks(lv: Level, links: map<Thread, Link>, t: Thread, k: Link, top: Node)
    requires Chain(lv.on, lv.next, top) && Back(lv.on, lv.prev) && Links(lv, links, top)
    requires t !in links && k.stage == Init && LinkOk(lv, k, top) && forall u :: u in links ==> links[u].node != k.node
    ensures Links(lv, links[t := k], top)
  {
    var links' := links[t := k];
    forall u, v | u in links' && v in links' && u != v
      ensures links'[u].node != links'[v].node && Fresh(links'[u], links'[v])
    {
      if u == t {
        FreshInit(k, links[v]);
      } else if v == t {
        FreshInit(k, links[u]);
      }
    }
  }

  lemma FreshInit(k: Link, u: Link)
    requires k.stage == Init
    ensures Fresh(k, u) && Fresh(u, k)
  {
  }

  lemma LeaveKeeps(lv: Level, links: map<Thread, Link>, t: Thread, top: Node)
    requires Inv(lv, links, top) && t in links && links[t].stage == Done
    ensures Inv(lv, links - {t}, top)
  {
    var rest := links - {t};
    forall a | a in lv.on && a != top && lv.prev[lv.next[a]] != a
      ensures Fixed(rest, a, lv.next[a], lv.prev[lv.next[a]])
    {
      var u :| u in links && Fixing(links[u], a, lv.next[a], lv.prev[lv.next[a]]);
      assert u in rest && Fixing(rest[u], a, lv.next[a], lv.prev[lv.next[a]]);
    }
  }

  lemma EmptyHolds(top: Node)
    requires Lt(HEAD, top)
    ensures Inv(Level({HEAD, top}, map[HEAD := top], map[top := HEAD]), map[], top)
  {
  }

  // ----- What the level promises -----

  /** When no insertion is between its two swaps, the back links mirror the forward ones. */
  lemma QuietMirrors(lv: Level, links: map<Thread, Link>, top: Node, a: Node)
    requires Inv(lv, links, top) && (forall t :: t in links ==> links[t].stage != Post) && a in lv.on && a != top
    ensures lv.prev[lv.next[a]] == a
  {
  }

  function Above(on: set<Node>, a: Node): set<Node> {
    set c | c in on && Lt(a, c)
  }

  lemma AboveShrinks(on: set<Node>, a: Node, b: Node)
    requires Lt(a, b) && b in on
    ensures |Above(on, b)| < |Above(on, a)|
  {
    ShrinksCard(Above(on, b), Above(on, a), b);
  }

  lemma ShrinksCard(x: set<Node>, y: set<Node>, b: Node)
    requires x <= y && b in y && b !in x
    ensures |x| < |y|
  {
    SubsetCard(x, y - {b});
  }

  lemma {:induction false} SubsetCard(x: set<Node>, y: set<Node>)
    requires x <= y
    ensures |x| <= |y|
    decreases x
  {
    if x != {} {
      var e :| e in x;
      SubsetCard(x - {e}, y - {e});
    }
  }

  predicate Path(next: map<Node, Node>, path: seq<Node>) {
    forall i :: 0 <= i < |path| - 1 ==> path[i] in next && next[path[i]] == path[i + 1] && Lt(path[i], path[i + 1])
  }

  lemma PathGrows(lv: Level, top: Node, a: Node, b: Node, rest: seq<Node>)
    requires Chain(lv.on, lv.next, top) && a in lv.on && a != top && Lt(a, b) && rest != [] && rest[0] == lv.next[a] && Path(lv.next, rest)
    requires forall c :: c in rest <==> c in lv.on && Le(lv.next[a], c) && Le(c, b)
    ensures Path(lv.next, [a] + rest) && forall c :: c in [a] + rest <==> c in lv.on && Le(a, c) && Le(c, b)
  {
    forall c
      ensures c in [a] + rest <==> c in lv.on && Le(a, c) && Le(c, b)
    {
      assert c in [a] + rest <==> c == a || c in rest;
      assert c in lv.on && Lt(a, c) ==> Le(lv.next[a], c);
    }
  }

  /** Following next from a visits exactly the linked nodes from a to b, in ascending order. */
  lemma {:induction false} PathBetween(lv: Level, top: Node, a: Node, b: Node) returns (path: seq<Node>)
    requires Chain(lv.on, lv.next, top) && a in lv.on && b in lv.on && Le(a, b)
    ensures path != [] && path[0] == a && path[|path| - 1] == b && Path(lv.next, path)
    ensures forall c :: c in path <==> c in lv.on && Le(a, c) && Le(c, b)
    decreases |Above(lv.on, a)|
  {
    if a == b {
      path := [a];
    } else {
      var n := lv.next[a];
      AboveShrinks(lv.on, a, n);
      var rest := PathBetween(lv, top, n, b);
      path := [a] + rest;
      PathGrows(lv, top, a, b, rest);
    }
  }
}
