/**
  The bitree's boundary map (bitree/bitree.go, bitree/bdb.go, bitree/manifest.go): which super table
  holds which keys, how a full table is rotated, how old tables are dropped, and what a crash between
  two of those writes leaves for the next open. Super tables are maps here.
 */
module Bitree {
  import opened Common

  datatype Fn = Fn(n: nat)

  /** Keys up to key, and above the boundary before, are in table fn. */
  datatype Bound = Bound(key: int, fn: Fn)

  ghost predicate Rising(b: seq<Bound>) {
    forall i, j :: 0 <= i < j < |b| ==> b[i].key < b[j].key && b[i].fn.n < b[j].fn.n
  }

  /** Cursor.Seek: the first boundary at or above x. */
  function Route(b: seq<Bound>, x: int): (i: nat)
    ensures i <= |b|
    ensures forall j :: 0 <= j < i ==> b[j].key < x
    ensures i < |b| ==> x <= b[i].key
  {
    if b == [] || x <= b[0].key then 0 else 1 + Route(b[1..], x)
  }

  /** How many boundaries CompactTo deletes. */
  function Deleted(b: seq<Bound>, k: int): nat { if Route(b, k) < |b| then Route(b, k) else 0 }

  /** What CompactTo keeps. */
  function Compacted(b: seq<Bound>, k: int): seq<Bound> {
    b[Deleted(b, k)..]
  }

  /** The file number CompactTo writes to the metadata first. */
  function CompactedFn(b: seq<Bound>, k: int, old': nat): nat {
    if Deleted(b, k) > 0 then b[Deleted(b, k) - 1].fn.n else old'
  }

  /** What reopening keeps: boundaries of tables that are not compacted away and whose file is there. */
  function Survivors(b: seq<Bound>, least: nat, files: set<Fn>): seq<Bound> {
    if b == [] then []
    else (if b[0].fn.n > least && b[0].fn in files then [b[0]] else []) + Survivors(b[1..], least, files)
  }

  lemma {:induction false} SurvivorsAll(b: seq<Bound>, least: nat, files: set<Fn>)
    requires forall i :: 0 <= i < |b| ==> b[i].fn.n > least && b[i].fn in files
    ensures Survivors(b, least, files) == b
    decreases |b|
  {
    if b != [] {
      SurvivorsAll(b[1..], least, files);
    }
  }

  lemma {:induction false} SurvivorsDrop(b: seq<Bound>, least: nat, files: set<Fn>, i: nat)
    requires i <= |b| && forall j :: 0 <= j < i ==> b[j].fn.n <= least
    ensures Survivors(b, least, files) == Survivors(b[i..], least, files)
    decreases i
  {
    if i > 0 {
      SurvivorsDrop(b[1..], least, files, i - 1);
      assert b[1..][i - 1..] == b[i..];
    } else {
      assert b[0..] == b;
    }
  }

  /**
    A crash after the metadata was written and before the boundaries were deleted: reopening leaves
    exactly what CompactTo would have left.
   */
  lemma CrashedCompaction(b: seq<Bound>, k: int, least: nat, files: set<Fn>)
    requires Rising(b) && forall i :: 0 <= i < |b| ==> b[i].fn.n > least && b[i].fn in files
    ensures Survivors(b, CompactedFn(b, k, least), files) == Compacted(b, k)
  {
    var r := Route(b, k);
    if 0 < r < |b| {
      SurvivorsDrop(b, b[r - 1].fn.n, files, r);
      SurvivorsAll(b[r..], b[r - 1].fn.n, files);
    } else {
      SurvivorsAll(b, least, files);
      assert b[0..] == b;
    }
  }

  /** From k on, compacting to k changes no route. */
  lemma CompactedRoutes(b: seq<Bound>, k: int, x: int)
    requires Rising(b) && k <= x
    ensures var c := Compacted(b, k);
      && (Route(c, x) < |c| <==> Route(b, x) < |b|)
      && (Route(c, x) < |c| ==> c[Route(c, x)] == b[Route(b, x)])
  {
    var c, r := Compacted(b, k), Route(b, k);
    if r < |b| {
      assert forall j :: 0 <= j < |c| ==> c[j] == b[r + j];
      RouteIs(c, x, if Route(b, x) < r then 0 else Route(b, x) - r);
    }
  }

  lemma RouteIs(b: seq<Bound>, x: int, i: nat)
    requires Rising(b) && i <= |b| && (forall j :: 0 <= j < i ==> b[j].key < x) && (i < |b| ==> x <= b[i].key)
    ensures Route(b, x) == i
  {
  }

  /** CompactTo(k) is to keep boundary e: its table reaches up to k, or no boundary does. */
  ghost predicate Spared(b: seq<Bound>, k: int, e: Bound) {
    k <= e.key || forall j :: 0 <= j < |b| ==> b[j].key < k
  }

  /** Exactly the boundaries that are not spared go, and the file number kept tells exactly their tables from the others. */
  ghost predicate DropsBelow(b: seq<Bound>, k: int, old': nat, c: seq<Bound>, least: nat) {
    && (forall e :: e in c <==> e in b && Spared(b, k, e))
    && (forall e :: e in b ==> (e.fn.n > least <==> Spared(b, k, e)))
    && (least == old' || exists e :: e in b && !Spared(b, k, e) && e.fn.n == least)
  }

  lemma CompactedDrops(b: seq<Bound>, k: int, least: nat)
    requires Rising(b) && Above(b, least)
    ensures DropsBelow(b, k, least, Compacted(b, k), CompactedFn(b, k, least))
  {
    var r, d := Route(b, k), Deleted(b, k);
    forall i | 0 <= i < |b|
      ensures i >= d <==> Spared(b, k, b[i])
    {
      assert r < i < |b| ==> b[r].key < b[i].key;
    }
    if d > 0 {
      assert b[d - 1] in b;
    }
  }

  type Tables = map<Fn, map<int, int>>

  function Look(tables: Tables, f: Fn, x: int): Option<int> {
    if f in tables && x in tables[f] then Some(tables[f][x]) else None
  }

  /** What a lookup of x finds. */
  function Found(b: seq<Bound>, tables: Tables, x: int): Option<int> {
    if Route(b, x) < |b| then Look(tables, b[Route(b, x)].fn, x) else None
  }

  /** The tables above a file number. */
  function Newer(tables: Tables, least: nat): Tables { map f | f in tables && f.n > least :: tables[f] }

  function NewerFiles(files: set<Fn>, least: nat): set<Fn> { set f | f in files && f.n > least }

  lemma CompactedAbove(b: seq<Bound>, k: int, least: nat)
    requires Rising(b) && Above(b, least)
    ensures Above(Compacted(b, k), CompactedFn(b, k, least))
  {
    var c, d := Compacted(b, k), Deleted(b, k);
    assert forall j :: 0 <= j < |c| ==> c[j] == b[d + j];
  }

  /** From k on, both find the same. */
  ghost predicate SameFrom(b: seq<Bound>, tables: Tables, b': seq<Bound>, tables': Tables, k: int) {
    forall x :: k <= x ==> Found(b', tables', x) == Found(b, tables, x)
  }

  ghost predicate SameFinds(b: seq<Bound>, tables: Tables, b': seq<Bound>, tables': Tables) {
    forall x :: Found(b', tables', x) == Found(b, tables, x)
  }

  lemma CompactedSame(b: seq<Bound>, tables: Tables, k: int, least: nat)
    requires Rising(b) && Above(b, least)
    ensures SameFrom(b, tables, b, tables, k) && SameFrom(b, tables, Compacted(b, k), tables, k)
    ensures SameFrom(b, tables, Compacted(b, k), Newer(tables, CompactedFn(b, k, least)), k)
  {
    forall x | k <= x
      ensures Found(Compacted(b, k), tables, x) == Found(b, tables, x)
      ensures Found(Compacted(b, k), Newer(tables, CompactedFn(b, k, least)), x) == Found(b, tables, x)
    {
      CompactedFound(b, tables, k, least, x);
    }
  }

  /** The table that key x is routed to. */
  function RoutedTo(b: seq<Bound>, x: int): Option<Fn> {
    if Route(b, x) < |b| then Some(b[Route(b, x)].fn) else None
  }

  /** The keys above last go to table f now, the others where they went. */
  ghost predicate Split(b: seq<Bound>, c: seq<Bound>, last: int, maxKey: int, f: Fn) {
    forall x :: RoutedTo(c, x) == if last < x <= maxKey then Some(f) else RoutedTo(b, x)
  }

  lemma RotatedSame(b: seq<Bound>, tables: Tables, data: map<int, int>, last: int, maxKey: int, f: Fn)
    requires Rising(b) && b != [] && Shape(b, maxKey, last) && Echo(tables, data) && Bounded(data, last) && b[|b| - 1].fn.n < f.n
    requires (forall i :: 0 <= i < |b| - 1 ==> b[i].key < last) && f !in tables
    ensures SameFinds(b, tables, Rotated(b, last, maxKey, f), tables[f := map[]])
  {
    forall x
      ensures Found(Rotated(b, last, maxKey, f), tables[f := map[]], x) == Found(b, tables, x)
    {
      RotatedFound(b, tables, data, last, maxKey, f, x);
    }
  }

  lemma RotatedSound(b: seq<Bound>, least: nat, next: nat, files: set<Fn>, tables: Tables,
                     data: map<int, int>, last: int, floor: int, maxKey: int)
    requires Sound(b, least, next, files, tables, data, last, floor, maxKey) && b != []
    requires forall i :: 0 <= i < |b| - 1 ==> b[i].key < last
    ensures SameFinds(b, tables, Rotated(b, last, maxKey, Fn(next)), tables[Fn(next) := map[]])
    ensures Split(b, Rotated(b, last, maxKey, Fn(next)), last, maxKey, Fn(next))
    ensures b[|b| - 1].fn.n < next && least < next
  {
    RotatedSame(b, tables, data, last, maxKey, Fn(next));
    forall x
      ensures RoutedTo(Rotated(b, last, maxKey, Fn(next)), x) == if last < x <= maxKey then Some(Fn(next)) else RoutedTo(b, x)
    {
      RotatedRoute(b, last, maxKey, Fn(next), x);
    }
  }

  /** From k on, compacting to k changes nothing that is found, and neither does dropping the tables compacted away. */
  lemma CompactedFound(b: seq<Bound>, tables: Tables, k: int, least: nat, x: int)
    requires Rising(b) && Above(b, least) && k <= x
    ensures Found(Compacted(b, k), tables, x) == Found(b, tables, x)
    ensures Found(Compacted(b, k), Newer(tables, CompactedFn(b, k, least)), x) == Found(b, tables, x)
  {
    CompactedRoutes(b, k, x);
    CompactedAbove(b, k, least);
  }

  /** Keys up to the last one keep their table, those above go to the new one. */
  lemma RotatedRoute(b: seq<Bound>, last: int, maxKey: int, f: Fn, x: int)
    requires Rising(b) && b != [] && Shape(b, maxKey, last) && b[|b| - 1].fn.n < f.n && forall i :: 0 <= i < |b| - 1 ==> b[i].key < last
    ensures var c := Rotated(b, last, maxKey, f);
      && (x <= last ==> Route(c, x) == Route(b, x) < |b| && c[Route(c, x)].fn == b[Route(b, x)].fn)
      && (last < x ==> Route(b, x) >= |b| - 1)
      && (last < x <= maxKey ==> Route(c, x) == |b| && c[|b|].fn == f)
      && (maxKey < x ==> Route(c, x) == |c| && Route(b, x) == |b|)
  {
    var c, n := Rotated(b, last, maxKey, f), |b| - 1;
    RotateRises(b, last, maxKey, f);
    assert forall i :: 0 <= i < n ==> c[i] == b[i];
    assert c[n] == Bound(last, b[n].fn) && c[n + 1] == Bound(maxKey, f);
    RouteIs(c, x, if x <= last then Route(b, x) else if x <= maxKey then n + 1 else n + 2);
  }

  /** Rotating changes nothing that is found. */
  lemma RotatedFound(b: seq<Bound>, tables: Tables, data: map<int, int>, last: int, maxKey: int, f: Fn, x: int)
    requires Rising(b) && b != [] && Shape(b, maxKey, last) && Echo(tables, data) && Bounded(data, last) && b[|b| - 1].fn.n < f.n
    requires (forall i :: 0 <= i < |b| - 1 ==> b[i].key < last) && f !in tables
    ensures Found(Rotated(b, last, maxKey, f), tables[f := map[]], x) == Found(b, tables, x)
  {
    RotatedRoute(b, last, maxKey, f, x);
    assert x > last ==> x !in data;
  }

  /** Data x is in the table it is routed to. */
  ghost predicate Holds(b: seq<Bound>, tables: Tables, x: int, v: int) {
    var r := Route(b, x);
    r < |b| && b[r].fn in tables && x in tables[b[r].fn] && tables[b[r].fn][x] == v
  }

  /** Everything flushed above floor is where it is looked for. */
  ghost predicate Kept(b: seq<Bound>, tables: Tables, data: map<int, int>, floor: int) {
    forall x {:trigger x in data} :: x in data && floor < x ==> Holds(b, tables, x, data[x])
  }

  /** Tables hold nothing else. */
  ghost predicate Echo(tables: Tables, data: map<int, int>) {
    forall f, x {:trigger x in tables[f]} :: f in tables && x in tables[f] ==> x in data && data[x] == tables[f][x]
  }

  /** Apart from the one at the top, boundaries are keys that have been flushed. */
  ghost predicate Shape(b: seq<Bound>, maxKey: int, last: int) {
    && last < maxKey && (b != [] ==> b[|b| - 1].key == maxKey)
    && (forall i :: 0 <= i < |b| - 1 ==> b[i].key <= last)
  }

  ghost predicate Bounded(data: map<int, int>, last: int) { forall x :: x in data ==> x <= last }

  /** File numbers are taken from a counter, and the tables above least exist. */
  ghost predicate Numbered(b: seq<Bound>, least: nat, next: nat, files: set<Fn>, tables: Tables) {
    && Rising(b) && least < next
    && (forall f :: f in files ==> f.n < next)
    && (forall f :: f in tables ==> f in files)
    && (forall i :: 0 <= i < |b| ==> b[i].fn.n < next && (b[i].fn.n > least ==> b[i].fn in files && b[i].fn in tables))
  }

  lemma LastRoute(b: seq<Bound>, maxKey: int, last: int, x: int)
    requires Rising(b) && Shape(b, maxKey, last) && b != [] && last < x <= maxKey
    ensures Route(b, x) == |b| - 1
  {
    RouteIs(b, x, |b| - 1);
  }

  lemma SetKeeps(b: seq<Bound>, tables: Tables, data: map<int, int>, floor: int, f: Fn, x: int, v: int)
    requires Kept(b, tables, data, floor) && Echo(tables, data) && f in tables && x !in data
    requires Route(b, x) < |b| && b[Route(b, x)].fn == f
    ensures var tables', data' := tables[f := tables[f][x := v]], data[x := v]; Kept(b, tables', data', floor) && Echo(tables', data')
  {
    var tables', data' := tables[f := tables[f][x := v]], data[x := v];
    forall y | y in data' && floor < y
      ensures Holds(b, tables', y, data'[y])
    {
      assert y != x ==> y in data && Holds(b, tables, y, data[y]);
    }
  }

  /** What the disk holds at any time, also after a crash. */
  ghost predicate Sound(b: seq<Bound>, least: nat, next: nat, files: set<Fn>, tables: Tables,
                        data: map<int, int>, last: int, floor: int, maxKey: int) {
    && Numbered(b, least, next, files, tables) && Shape(b, maxKey, last) && Bounded(data, last)
    && Kept(b, tables, data, floor) && Echo(tables, data)
    && (b != [] ==> b[|b| - 1].fn.n > least)
    && (forall i :: 0 <= i < |b| && b[i].fn.n <= least ==> b[i].key <= floor)
  }

  /** Where an open may crash: after deleting some files, after deleting the boundaries, after making the first table. */
  datatype OpenCrash = DeletingFiles(gone: set<Fn>) | DeletedBounds | MadeTable

  class Bitree {
    const maxKey: int                    // BdbMaxKey
    // on disk
    var bounds: seq<Bound>
    var least: nat                       // minUnCompactFileNum
    var next: nat                        // nextFileNum
    var files: set<Fn>
    var tables: Tables
    // in memory
    var up: bool
    var current: Fn                      // stMutable
    ghost var last: int                  // the greatest key flushed so far
    ghost var floor: int                 // keys above it have not been compacted away
    ghost var data: map<int, int>        // everything flushed

    constructor (maxKey: int, ghost bottom: int)
      requires bottom < maxKey
      ensures Disk() && !up && this.maxKey == maxKey && last == bottom && data == map[]
    {
      this.maxKey := maxKey;
      bounds, least, next, files, tables := [], 0, 1, {}, map[];
      up, current, last, floor, data := false, Fn(0), bottom, bottom, map[];
    }

    /** What a crash may leave. */
    ghost predicate Disk()
      reads this`bounds, this`least, this`next, this`files, this`tables, this`data, this`last, this`floor
    {
      Sound(bounds, least, next, files, tables, data, last, floor, maxKey)
    }

    ghost predicate Valid()
      reads this
    {
      up && Ready()
    }

    ghost predicate Ready()
      reads this`bounds, this`least, this`next, this`files, this`tables, this`data, this`last, this`floor, this`current
    {
      && Sound(bounds, least, next, files, tables, data, last, floor, maxKey)
      && bounds != [] && current == bounds[|bounds| - 1].fn && Above(bounds, least)
    }

    /** Everything flushed and not compacted away is found; what is found was flushed. */
    method Get(x: int) returns (r: Option<int>)
      requires Valid()
      ensures r == Found(bounds, tables, x)
      ensures x in data && floor < x ==> r == Some(data[x])
      ensures r == None || (x in data && r == Some(data[x]))
    {
      var i := Route(bounds, x);
      if i == |bounds| || bounds[i].fn !in tables || x !in tables[bounds[i].fn] {
        return None;
      }
      return Some(tables[bounds[i].fn][x]);
    }

    /** Flushes come in ascending key order. */
    method Set(x: int, v: int)
      requires Valid() && last < x < maxKey
      modifies this`tables, this`data, this`last
      ensures Valid() && data == old(data)[x := v] && last == x
    {
      hide Sound, Above;
      LastIsThere(bounds, least, next, files, tables, data, last, floor, maxKey);
      SetSound(bounds, least, next, files, tables, data, last, floor, maxKey, x, v);
      tables := tables[current := tables[current][x := v]];
      data, last := data[x := v], x;
    }

    /** makeRoomForWrite at the last key flushed; a crash may come before the boundaries are switched. */
    method MakeRoomForWrite(lastKey: int, crash: bool)
      requires Valid() && lastKey == last && last in data && (forall i :: 0 <= i < |bounds| - 1 ==> bounds[i].key < last)
      modifies this`bounds, this`next, this`files, this`tables, this`up, this`current
      ensures Disk() && (!crash ==> Valid()) && up == !crash
      ensures crash ==> bounds == old(bounds)
      ensures !crash ==> bounds == Rotated(old(bounds), last, maxKey, Fn(old(next)))
      ensures !crash ==> SameFinds(old(bounds), old(tables), bounds, tables)
      ensures !crash ==> Split(old(bounds), bounds, last, maxKey, Fn(old(next)))
    {
      hide Sound, SameFinds, Rotated, Split;
      RotatedSound(bounds, least, next, files, tables, data, last, floor, maxKey);
      var f := NewSuperTable();
      up := !crash;
      if !crash {
        Switch(lastKey, f);
      }
    }

    /** switchBdbKey: one transaction puts both boundaries. */
    method Switch(lastKey: int, f: Fn)
      requires Valid() && lastKey == last && f in files && f in tables && current.n < f.n && least < f.n
      requires forall i :: 0 <= i < |bounds| - 1 ==> bounds[i].key < last
      modifies this`bounds, this`current
      ensures Valid() && bounds == Rotated(old(bounds), last, maxKey, f)
    {
      var b := bounds[..|bounds| - 1] + [Bound(lastKey, current), Bound(maxKey, f)];
      RotateSound(bounds, least, next, files, tables, data, last, floor, maxKey, f);
      RotateAbove(bounds, last, maxKey, f, least);
      bounds, current := b, f;
    }

    /** Drops the tables whose keys all lie below k; a crash may come between its two writes. */
    method CompactTo(k: int, crash: bool)
      requires Valid()
      modifies this`bounds, this`least, this`up, this`floor
      ensures Disk() && (!crash ==> Valid() && bounds == Compacted(old(bounds), k)) && up == !crash
      ensures crash ==> bounds == old(bounds)
      ensures least == CompactedFn(old(bounds), k, old(least))
      ensures DropsBelow(old(bounds), k, old(least), if crash then Compacted(bounds, k) else bounds, least)
      ensures floor == old(floor) || floor < k
      ensures SameFrom(old(bounds), tables, bounds, tables, k)
    {
      ghost var b, least0 := bounds, least;
      up := !crash;
      DropBelow(k, crash);
      CompactedDrops(b, k, least0);
      assert SameFrom(b, tables, bounds, tables, k) by {
        CompactedSame(b, tables, k, least0);
      }
    }

    method DropBelow(k: int, crash: bool)
      requires Ready()
      modifies this`bounds, this`least, this`floor
      ensures Disk() && (!crash ==> Ready()) && bounds == if crash then old(bounds) else Compacted(old(bounds), k)
      ensures least == CompactedFn(old(bounds), k, old(least))
      ensures floor == old(floor) || floor < k
    {
      var n, compactTo := ToDelete(k);
      CompactedIs(bounds, k, n, least);
      DropUpTo(n, compactTo, crash);
    }

    method DropUpTo(n: nat, compactTo: nat, crash: bool)
      requires Ready() && n < |bounds| && (n > 0 ==> compactTo == bounds[n - 1].fn.n)
      modifies this`bounds, this`least, this`floor
      ensures Disk() && (!crash ==> Ready()) && bounds == (if crash then old(bounds) else old(bounds)[n..])
      ensures least == if n > 0 then compactTo else old(least)
      ensures floor == old(floor) || (n > 0 && floor == old(bounds)[n - 1].key)
    {
      if n > 0 {
        Drop(n, compactTo, crash);
      } else {
        assert bounds[0..] == bounds;
      }
    }

    /** The metadata first, then the boundaries. */
    method Drop(n: nat, compactTo: nat, crash: bool)
      requires Ready() && 0 < n < |bounds| && compactTo == bounds[n - 1].fn.n
      modifies this`bounds, this`least, this`floor
      ensures Disk() && least == compactTo && bounds == (if crash then old(bounds) else old(bounds)[n..])
      ensures floor == old(floor) || floor == old(bounds)[n - 1].key
      ensures !crash ==> Ready()
    {
      hide Sound;
      CompactSound(bounds, least, next, files, tables, data, last, floor, maxKey, n);
      least, floor := compactTo, if floor < bounds[n - 1].key then bounds[n - 1].key else floor;
      if !crash {
        bounds := bounds[n..];
      }
    }

    /** How many boundaries lie before the one k is routed to, and the greatest file number among them. */
    method ToDelete(k: int) returns (n: nat, compactTo: nat)
      requires Rising(bounds)
      ensures n == Deleted(bounds, k)
      ensures n > 0 ==> compactTo == bounds[n - 1].fn.n
    {
      var upper := Route(bounds, k);
      n, compactTo := 0, 0;
      if upper < |bounds| {
        while n < |bounds| && bounds[n].key < bounds[upper].key
          invariant 0 <= n <= upper && compactTo == if n == 0 then 0 else bounds[n - 1].fn.n
        {
          compactTo := if bounds[n].fn.n > compactTo then bounds[n].fn.n else compactTo;
          n := n + 1;
        }
      }
    }

    /** A crash between the two writes and the next open: the same boundaries, and from k on the same finds, as without it. */
    method CompactCrashOpen(k: int)
      requires Valid()
      modifies this`bounds, this`least, this`up, this`floor, this`next, this`files, this`tables, this`current
      ensures Valid() && bounds == Compacted(old(bounds), k) && least == CompactedFn(old(bounds), k, old(least))
      ensures DropsBelow(old(bounds), k, old(least), bounds, least)
      ensures SameFrom(old(bounds), old(tables), bounds, tables, k)
    {
      hide Compacted, SameFrom, Survivors;
      CompactedSame(bounds, tables, k, least);
      CrashedCompaction(bounds, k, least, files);
      CompactTo(k, true);
      Open();
    }

    /** Brings the tree up from what is on disk. */
    method Open()
      requires Disk() && !up
      modifies this`bounds, this`next, this`files, this`tables, this`up, this`current
      ensures Valid() && data == old(data)
      ensures old(bounds) != [] ==> bounds == Survivors(old(bounds), least, old(files)) && tables == Newer(old(tables), least)
      ensures old(bounds) == [] ==> bounds == [Bound(maxKey, Fn(old(next)))]
    {
      hide Survivors, Newer, Sound;
      Recover();
      if bounds == [] {
        Begin();
      } else {
        Resume();
      }
      up := true;
    }

    /** An open that crashes on its way. */
    method OpenUntil(at: OpenCrash)
      requires Disk() && !up && (at.DeletingFiles? ==> forall f :: f in at.gone ==> f.n <= least)
      modifies this`bounds, this`next, this`files, this`tables
      ensures Disk() && (bounds == [] <==> old(bounds) == [])
      ensures Survivors(bounds, least, files) == Survivors(old(bounds), least, old(files))
      ensures bounds != [] ==> Newer(tables, least) == Newer(old(tables), least)
    {
      hide Sound, Above, Survivors, Newer;
      if at.DeletingFiles? {
        DropFiles(at.gone);
      } else {
        Recover();
        RecoveredStays(bounds, least, next, files, tables, data, last, floor, maxKey);
        NewerTwice(old(tables), least);
        if at.MadeTable? && bounds == [] {
          var f := NewSuperTable();
          SurvivorsAll(bounds, least, files);
        }
      }
    }

    /** The next open after that gives what the first one would have given. */
    method OpenAgain(at: OpenCrash)
      requires Disk() && !up && (at.DeletingFiles? ==> forall f :: f in at.gone ==> f.n <= least)
      modifies this`bounds, this`next, this`files, this`tables, this`up, this`current
      ensures Valid() && data == old(data)
      ensures old(bounds) != [] ==> bounds == Survivors(old(bounds), least, old(files)) && tables == Newer(old(tables), least)
      ensures old(bounds) == [] ==> |bounds| == 1 && bounds[0].key == maxKey
    {
      OpenUntil(at);
      Open();
    }

    method DropFiles(gone: set<Fn>)
      requires Disk() && forall f :: f in gone ==> f.n <= least
      modifies this`files, this`tables
      ensures Disk() && files == old(files) - gone && Newer(tables, least) == Newer(old(tables), least)
      ensures Survivors(bounds, least, files) == Survivors(bounds, least, old(files))
    {
      hide Sound, Survivors;
      DropSound(bounds, least, next, files, tables, data, last, floor, maxKey, gone);
      SurvivorsSame(bounds, least, files, files - gone);
      files := files - gone;
      tables := tables - gone;
    }

    /** Deletes the files of compacted tables, and the boundaries that led to them. */
    method Recover()
      requires Disk()
      modifies this`bounds, this`files, this`tables
      ensures Disk() && bounds == Survivors(old(bounds), least, old(files)) && Above(bounds, least) && tables == Newer(old(tables), least)
      ensures (bounds == [] <==> old(bounds) == []) && files == NewerFiles(old(files), least)
    {
      hide Sound, Survivors, Newer;
      var left := NewerFiles(files, least);
      var b := KeepBounds(bounds, least, left);
      OpenSound(bounds, least, next, files, tables, data, last, floor, maxKey);
      bounds, files, tables := b, left, Newer(tables, least);
    }

    method Resume()
      requires Disk() && bounds != [] && Above(bounds, least)
      modifies this`current
      ensures Ready()
    {
      current := bounds[|bounds| - 1].fn;
    }

    /** setBdbMaxKey with the first table. */
    method Begin()
      requires Disk() && bounds == []
      modifies this`bounds, this`next, this`files, this`tables, this`current
      ensures Ready() && bounds == [Bound(maxKey, Fn(old(next)))]
    {
      hide Sound;
      var f := NewSuperTable();
      FirstSound(least, next, files, tables, data, last, floor, maxKey, f);
      bounds, current := [Bound(maxKey, f)], f;
    }

    /** A table no boundary leads to, with a number that is compacted away, may be freed at any time. */
    method FreeSuperTable(f: Fn)
      requires Disk() && f.n <= least
      modifies this`files, this`tables
      ensures Disk() && (old(Valid()) ==> Valid()) && files == old(files) - {f}
    {
      hide Sound;
      DropSound(bounds, least, next, files, tables, data, last, floor, maxKey, {f});
      files := files - {f};
      tables := tables - {f};
    }

    /** getNextFileNum writes the counter before the file is made, so no number is used twice. */
    method NewSuperTable() returns (f: Fn)
      requires Disk()
      modifies this`next, this`files, this`tables
      ensures Disk() && f == Fn(old(next)) && f !in old(files) && f in files && tables == old(tables)[f := map[]] && next == old(next) + 1 && least < f.n
    {
      hide Sound;
      f := Fn(next);
      NewSound(bounds, least, next, files, tables, data, last, floor, maxKey);
      next := next + 1;
      files := files + {f};
      tables := tables[f := map[]];
    }
  }

  lemma SetSound(b: seq<Bound>, least: nat, next: nat, files: set<Fn>, tables: Tables,
                 data: map<int, int>, last: int, floor: int, maxKey: int, x: int, v: int)
    requires Sound(b, least, next, files, tables, data, last, floor, maxKey) && b != [] && last < x < maxKey && b[|b| - 1].fn in tables
    ensures var f := b[|b| - 1].fn; Sound(b, least, next, files, tables[f := tables[f][x := v]], data[x := v], x, floor, maxKey)
  {
    LastRoute(b, maxKey, last, x);
    SetKeeps(b, tables, data, floor, b[|b| - 1].fn, x, v);
  }

  /** The table written to is there. */
  lemma LastIsThere(b: seq<Bound>, least: nat, next: nat, files: set<Fn>, tables: Tables,
                    data: map<int, int>, last: int, floor: int, maxKey: int)
    requires Sound(b, least, next, files, tables, data, last, floor, maxKey)
    ensures b != [] ==> b[|b| - 1].fn in tables && b[|b| - 1].fn.n < next
  {
  }

  lemma NewSound(b: seq<Bound>, least: nat, next: nat, files: set<Fn>, tables: Tables,
                 data: map<int, int>, last: int, floor: int, maxKey: int)
    requires Sound(b, least, next, files, tables, data, last, floor, maxKey)
    ensures Fn(next) !in files && Fn(next) !in tables && least < next
    ensures Sound(b, least, next + 1, files + {Fn(next)}, tables[Fn(next) := map[]], data, last, floor, maxKey)
  {
    NewKeeps(b, tables, data, floor, Fn(next));
  }

  lemma DropSound(b: seq<Bound>, least: nat, next: nat, files: set<Fn>, tables: Tables,
                  data: map<int, int>, last: int, floor: int, maxKey: int, gone: set<Fn>)
    requires Sound(b, least, next, files, tables, data, last, floor, maxKey) && forall f :: f in gone ==> f.n <= least
    ensures Sound(b, least, next, files - gone, tables - gone, data, last, floor, maxKey)
  {
    DropKeeps(b, tables, data, floor, least, gone);
  }

  lemma RotateSound(b: seq<Bound>, least: nat, next: nat, files: set<Fn>, tables: Tables,
                    data: map<int, int>, last: int, floor: int, maxKey: int, f: Fn)
    requires Sound(b, least, next, files, tables, data, last, floor, maxKey) && b != [] && f in files && f in tables
    requires b[|b| - 1].fn.n < f.n && forall i :: 0 <= i < |b| - 1 ==> b[i].key < last
    ensures Sound(Rotated(b, last, maxKey, f), least, next, files, tables, data, last, floor, maxKey)
  {
    RotateKeeps(b, last, maxKey, f, tables, data, floor);
    RotateNumbers(b, last, maxKey, f, least, next, files, tables);
    var c, n := Rotated(b, last, maxKey, f), |b| - 1;
    assert forall i :: 0 <= i < n ==> c[i] == b[i];
    assert c[n].fn == b[n].fn && c[n + 1].fn == f;
  }

  lemma RotateAbove(b: seq<Bound>, k: int, maxKey: int, f: Fn, least: nat)
    requires b != [] && f.n > least && Above(b, least)
    ensures Above(Rotated(b, k, maxKey, f), least)
  {
  }

  lemma CompactedIs(b: seq<Bound>, k: int, n: nat, least: nat)
    requires n == Deleted(b, k)
    ensures n <= |b| && Compacted(b, k) == b[n..] && (n == 0 ==> b[n..] == b && CompactedFn(b, k, least) == least)
    ensures n > 0 ==> n < |b| && b[n - 1].key < k && CompactedFn(b, k, least) == b[n - 1].fn.n
  {
  }

  ghost predicate Above(b: seq<Bound>, least: nat) { forall i :: 0 <= i < |b| ==> b[i].fn.n > least }

  lemma AboveRest(b: seq<Bound>, n: nat)
    requires Rising(b) && 0 < n < |b|
    ensures Above(b[n..], b[n - 1].fn.n) && b[n..][|b| - n - 1] == b[|b| - 1]
  {
  }

  /** Both states CompactTo goes through are sound. */
  lemma CompactSound(b: seq<Bound>, least: nat, next: nat, files: set<Fn>, tables: Tables,
                     data: map<int, int>, last: int, floor: int, maxKey: int, n: nat)
    requires Sound(b, least, next, files, tables, data, last, floor, maxKey) && 0 < n < |b| && b[n - 1].fn.n > least
    ensures var higher, upTo := (if floor < b[n - 1].key then b[n - 1].key else floor), b[n - 1].fn.n;
      && Sound(b, upTo, next, files, tables, data, last, higher, maxKey)
      && Sound(b[n..], upTo, next, files, tables, data, last, higher, maxKey)
      && Above(b[n..], upTo) && b[n..][|b| - n - 1] == b[|b| - 1]
  {
    AboveRest(b, n);
    var higher := if floor < b[n - 1].key then b[n - 1].key else floor;
    KeptAbove(b, tables, data, floor, higher);
    CompactKeeps(b, n, tables, data, higher, maxKey, last);
    var c := b[n..];
    assert forall j :: 0 <= j < |c| ==> c[j] == b[n + j];
  }

  lemma RecoveredStays(b: seq<Bound>, least: nat, next: nat, files: set<Fn>, tables: Tables,
                       data: map<int, int>, last: int, floor: int, maxKey: int)
    requires Sound(b, least, next, files, tables, data, last, floor, maxKey) && Above(b, least)
    ensures Survivors(b, least, files) == b
  {
    SurvivorsAll(b, least, files);
  }

  lemma NewerTwice(tables: Tables, least: nat)
    ensures Newer(Newer(tables, least), least) == Newer(tables, least)
  {
  }

  lemma OpenSound(b: seq<Bound>, least: nat, next: nat, files: set<Fn>, tables: Tables,
                  data: map<int, int>, last: int, floor: int, maxKey: int)
    requires Sound(b, least, next, files, tables, data, last, floor, maxKey)
    ensures var c := Survivors(b, least, NewerFiles(files, least));
      && c == Survivors(b, least, files) && Sound(c, least, next, NewerFiles(files, least), Newer(tables, least), data, last, floor, maxKey)
      && (c == [] <==> b == []) && Above(c, least)
  {
    hide Survivors;
    var files', tables' := NewerFiles(files, least), Newer(tables, least);
    var d := CompactedPrefix(b, least, files, files');
    OpenKeeps(b, d, tables, tables', data, floor, maxKey, last, least);
    var c := b[d..];
    assert forall j :: 0 <= j < |c| ==> c[j] == b[d + j];
  }

  lemma FirstSound(least: nat, next: nat, files: set<Fn>, tables: Tables,
                   data: map<int, int>, last: int, floor: int, maxKey: int, f: Fn)
    requires Sound([], least, next, files, tables, data, last, floor, maxKey) && f in files && f in tables && f.n > least
    ensures Sound([Bound(maxKey, f)], least, next, files, tables, data, last, floor, maxKey)
  {
    assert forall x :: x in data ==> x <= floor;
  }

  lemma NewKeeps(b: seq<Bound>, tables: Tables, data: map<int, int>, floor: int, f: Fn)
    requires Kept(b, tables, data, floor) && Echo(tables, data) && f !in tables
    ensures Kept(b, tables[f := map[]], data, floor) && Echo(tables[f := map[]], data)
  {
  }

  function Rotated(b: seq<Bound>, k: int, maxKey: int, f: Fn): seq<Bound>
    requires b != []
  {
    b[..|b| - 1] + [Bound(k, b[|b| - 1].fn), Bound(maxKey, f)]
  }

  /** The keys flushed so far are routed as before. */
  lemma RotateKeeps(b: seq<Bound>, k: int, maxKey: int, f: Fn, tables: Tables, data: map<int, int>, floor: int)
    requires Rising(b) && Shape(b, maxKey, k) && b != [] && Kept(b, tables, data, floor) && Bounded(data, k)
    requires forall i :: 0 <= i < |b| - 1 ==> b[i].key < k
    requires b[|b| - 1].fn.n < f.n
    ensures Kept(Rotated(b, k, maxKey, f), tables, data, floor) && Rising(Rotated(b, k, maxKey, f)) && Shape(Rotated(b, k, maxKey, f), maxKey, k)
  {
    var c := Rotated(b, k, maxKey, f);
    RotateRises(b, k, maxKey, f);
    forall x | x in data && floor < x
      ensures Holds(c, tables, x, data[x])
    {
      assert Holds(b, tables, x, data[x]);
      var r := Route(b, x);
      RouteIs(c, x, r);
    }
  }

  lemma RotateRises(b: seq<Bound>, k: int, maxKey: int, f: Fn)
    requires Rising(b) && b != [] && k < maxKey && b[|b| - 1].fn.n < f.n
    requires forall i :: 0 <= i < |b| - 1 ==> b[i].key < k
    ensures Rising(Rotated(b, k, maxKey, f))
  {
    var c, n := Rotated(b, k, maxKey, f), |b| - 1;
    assert forall i :: 0 <= i < n ==> c[i] == b[i];
    assert c[n] == Bound(k, b[n].fn) && c[n + 1] == Bound(maxKey, f);
  }

  lemma RotateNumbers(b: seq<Bound>, k: int, maxKey: int, f: Fn, least: nat, next: nat, files: set<Fn>, tables: Tables)
    requires Numbered(b, least, next, files, tables) && b != [] && k < maxKey && b[|b| - 1].fn.n < f.n < next && f in files && f in tables
    requires forall i :: 0 <= i < |b| - 1 ==> b[i].key < k
    ensures Numbered(Rotated(b, k, maxKey, f), least, next, files, tables)
  {
    RotateRises(b, k, maxKey, f);
    var c, n := Rotated(b, k, maxKey, f), |b| - 1;
    assert forall i :: 0 <= i < n ==> c[i] == b[i];
    assert c[n].fn == b[n].fn && c[n + 1].fn == f;
  }

  lemma KeptAbove(b: seq<Bound>, tables: Tables, data: map<int, int>, floor: int, higher: int)
    requires Kept(b, tables, data, floor) && floor <= higher
    ensures Kept(b, tables, data, higher)
  {
  }

  lemma CompactKeeps(b: seq<Bound>, i: nat, tables: Tables, data: map<int, int>, floor: int, maxKey: int, last: int)
    requires Rising(b) && Shape(b, maxKey, last) && 0 < i < |b| && Kept(b, tables, data, floor) && b[i - 1].key <= floor
    ensures Rising(b[i..]) && Shape(b[i..], maxKey, last) && Kept(b[i..], tables, data, floor)
  {
    Suffix(b, i, maxKey, last);
    forall x | x in data && floor < x
      ensures Holds(b[i..], tables, x, data[x])
    {
      assert Holds(b, tables, x, data[x]);
      SuffixRoute(b, i, x);
    }
  }

  lemma Suffix(b: seq<Bound>, i: nat, maxKey: int, last: int)
    requires Rising(b) && Shape(b, maxKey, last) && i < |b|
    ensures Rising(b[i..]) && Shape(b[i..], maxKey, last)
  {
  }

  lemma SuffixRoute(b: seq<Bound>, i: nat, x: int)
    requires 0 < i <= |b| && Rising(b) && Rising(b[i..]) && b[i - 1].key < x
    ensures i <= Route(b, x) && Route(b[i..], x) == Route(b, x) - i
  {
    hide Route;
    var r := Route(b, x);
    assert i <= r;
    var c := b[i..];
    assert forall j :: 0 <= j < |c| ==> c[j] == b[i + j];
    RouteIs(c, x, r - i);
  }

  /** The loop over the boundaries at open. */
  method KeepBounds(b: seq<Bound>, least: nat, files: set<Fn>) returns (r: seq<Bound>)
    ensures r == Survivors(b, least, files)
  {
    r := [];
    var i := 0;
    assert b[0..] == b;
    while i < |b|
      invariant i <= |b| && r + Survivors(b[i..], least, files) == Survivors(b, least, files)
    {
      SurvivorsStep(b, i, r, least, files);
      if b[i].fn.n > least && b[i].fn in files {
        r := r + [b[i]];
      }
      i := i + 1;
    }
    assert b[i..] == [];
  }

  lemma {:induction false} SurvivorsStep(b: seq<Bound>, i: nat, r: seq<Bound>, least: nat, files: set<Fn>)
    requires i < |b|
    ensures r + Survivors(b[i..], least, files) ==
      (if b[i].fn.n > least && b[i].fn in files then r + [b[i]] else r) + Survivors(b[i + 1..], least, files)
  {
    assert b[i..][0] == b[i] && b[i..][1..] == b[i + 1..];
  }

  lemma {:induction false} FirstAbove(b: seq<Bound>, least: nat) returns (d: nat)
    requires Rising(b)
    ensures d <= |b| && forall i :: 0 <= i < |b| ==> (i < d <==> b[i].fn.n <= least)
  {
    d := 0;
    while d < |b| && b[d].fn.n <= least
      invariant d <= |b| && forall i :: 0 <= i < d ==> b[i].fn.n <= least
    {
      d := d + 1;
    }
  }

  /** File numbers rise, so what is compacted away is a prefix. */
  lemma {:induction false} CompactedPrefix(b: seq<Bound>, least: nat, files: set<Fn>, files': set<Fn>) returns (d: nat)
    requires Rising(b) && forall i :: 0 <= i < |b| && b[i].fn.n > least ==> b[i].fn in files
    requires forall f :: f in files' <==> f in files && f.n > least
    ensures d <= |b| && Survivors(b, least, files) == b[d..] && Survivors(b, least, files') == b[d..]
    ensures forall i :: 0 <= i < |b| ==> (i < d <==> b[i].fn.n <= least)
  {
    d := FirstAbove(b, least);
    SurvivorsDrop(b, least, files, d);
    SurvivorsDrop(b, least, files', d);
    SurvivorsAll(b[d..], least, files);
    SurvivorsAll(b[d..], least, files');
  }

  lemma OpenKeeps(b: seq<Bound>, d: nat, tables: Tables, tables': Tables, data: map<int, int>,
                  floor: int, maxKey: int, last: int, least: nat)
    requires Rising(b) && Shape(b, maxKey, last) && d <= |b| && Kept(b, tables, data, floor) && Echo(tables, data)
    requires forall f :: f in tables' <==> f in tables && f.n > least
    requires forall f :: f in tables' ==> tables'[f] == tables[f]
    requires forall i :: 0 <= i < |b| ==> (i < d <==> b[i].fn.n <= least)
    requires forall i :: 0 <= i < d ==> b[i].key <= floor
    requires b != [] ==> d < |b|
    ensures Rising(b[d..]) && Shape(b[d..], maxKey, last) && Kept(b[d..], tables', data, floor) && Echo(tables', data)
  {
    if d == 0 {
      assert b[0..] == b;
    } else {
      CompactKeeps(b, d, tables, data, floor, maxKey, last);
    }
    forall x | x in data && floor < x
      ensures Holds(b[d..], tables', x, data[x])
    {
      assert Holds(b[d..], tables, x, data[x]);
    }
  }

  lemma DropKeeps(b: seq<Bound>, tables: Tables, data: map<int, int>, floor: int, least: nat, gone: set<Fn>)
    requires Kept(b, tables, data, floor) && Echo(tables, data) && forall f :: f in gone ==> f.n <= least
    requires forall i :: 0 <= i < |b| && b[i].fn.n <= least ==> b[i].key <= floor
    ensures Kept(b, tables - gone, data, floor) && Echo(tables - gone, data)
  {
    forall x | x in data && floor < x
      ensures Holds(b, tables - gone, x, data[x])
    {
      assert Holds(b, tables, x, data[x]);
    }
  }

  lemma {:induction false} SurvivorsSame(b: seq<Bound>, least: nat, files: set<Fn>, files': set<Fn>)
    requires forall f :: f in files && f.n > least <==> f in files' && f.n > least
    ensures Survivors(b, least, files') == Survivors(b, least, files)
    decreases |b|
  {
    if b != [] {
      SurvivorsSame(b[1..], least, files, files');
      assert b[0].fn.n > least ==> (b[0].fn in files <==> b[0].fn in files');
    }
  }
}
