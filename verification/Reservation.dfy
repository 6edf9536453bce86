/**
  Room in the memtable (mem_table.go, internal/arenaskl/arena.go, internal/arenaskl/node.go): a write
  is admitted when the bytes it may need are reserved, and the arena is a counter that only grows.
  The methods of MemTable are the atomic steps of the writers, in any order they may come.
 */
module Reservation {
  import opened Common

  const MAX_HEIGHT := 18
  const LINKS := 8
  const MAX_NODE := 160   // four words and 18 pairs of links
  const ALIGN := 3

  /** The sizes of a user key and a value. */
  datatype Entry = Entry(key: nat, value: nat)

  /** The bytes an entry takes at most: the highest node, the internal key, the value, alignment. */
  function Most(e: Entry): nat { MAX_NODE + (e.key + 8) + e.value + ALIGN }

  /** memTableEntrySize: the same in 32 bits. */
  function EntrySize(e: Entry): nat { Most(e) % WORD }

  /** The links a node of height h leaves out. */
  function Unused(h: nat): nat
    requires 1 <= h <= MAX_HEIGHT
  {
    (MAX_HEIGHT - h) * LINKS
  }

  /** What a node of height h takes, with room to align it. */
  function NodeBytes(e: Entry, h: nat): nat
    requires 1 <= h <= MAX_HEIGHT
  {
    Most(e) - Unused(h)
  }

  /** What newRawNode asks the arena for: the same in 32 bits. */
  function Padded(e: Entry, h: nat): nat
    requires 1 <= h <= MAX_HEIGHT
  {
    NodeBytes(e, h) % WORD
  }

  predicate Fits(e: Entry) { Most(e) < WORD }

  /** newNode panics at these. */
  predicate TooLarge(e: Entry) { e.key + 8 >= WORD || e.value >= WORD }

  /**
    The sums in 32 bits ask for the node that is written, and reserve that node with the links it leaves
    out, at every height, exactly for entries below 4 GiB.
   */
  lemma CoversEveryHeight(e: Entry)
    ensures Fits(e) <==>
      forall h :: 1 <= h <= MAX_HEIGHT ==> Padded(e, h) == NodeBytes(e, h) && NodeBytes(e, h) + Unused(h) <= EntrySize(e)
    ensures TooLarge(e) ==> !Fits(e)
  {
    if !Fits(e) {
      assert Padded(e, MAX_HEIGHT) != NodeBytes(e, MAX_HEIGHT);
    }
  }

  /** An entry of just 4 GiB reserves nothing and asks for nearly all. */
  lemma WrappedIsNot()
    ensures var e := Entry(0, WORD - 171); !TooLarge(e) && !Fits(e) && EntrySize(e) == 0 && Padded(e, 1) == WORD - 136
  {
  }

  /** A little more and the reservation covers what is asked for, but neither is the size of the node. */
  lemma WrappedSlipsThrough()
    ensures var e := Entry(100, WORD - 1);
      !TooLarge(e) && !Fits(e) && Padded(e, 1) + Unused(1) == EntrySize(e) == 270 && NodeBytes(e, 1) == WORD + 134
  {
  }

  function Total(batch: seq<Entry>): nat {
    if batch == [] then 0 else EntrySize(batch[0]) + Total(batch[1..])
  }

  predicate AllFit(batch: seq<Entry>) { forall e :: e in batch ==> Fits(e) }

  /** A writer that has been admitted, and what it has still to add. */
  datatype Writer = Writer(rest: seq<Entry>, open: bool)

  function Owed(ws: seq<Writer>): nat {
    if ws == [] then 0 else Total(ws[0].rest) + Owed(ws[1..])
  }

  function Open(ws: seq<Writer>): nat {
    if ws == [] then 0 else (if ws[0].open then 1 else 0) + Open(ws[1..])
  }

  lemma {:induction false} Changed(ws: seq<Writer>, i: nat, w: Writer)
    requires i < |ws|
    ensures Owed(ws[i := w]) == Owed(ws) - Total(ws[i].rest) + Total(w.rest)
    ensures Open(ws[i := w]) == Open(ws) - (if ws[i].open then 1 else 0) + (if w.open then 1 else 0)
    ensures Total(ws[i].rest) <= Owed(ws) && (ws[i].open ==> 0 < Open(ws))
    decreases |ws|
  {
    if i > 0 {
      Changed(ws[1..], i - 1, w);
      assert ws[i := w][1..] == ws[1..][i - 1 := w];
    }
  }

  lemma {:induction false} Added(ws: seq<Writer>, w: Writer)
    ensures Owed(ws + [w]) == Owed(ws) + Total(w.rest) && Open(ws + [w]) == Open(ws) + (if w.open then 1 else 0)
    decreases |ws|
  {
    if ws != [] {
      Added(ws[1..], w);
      assert (ws + [w])[1..] == ws[1..] + [w];
    }
  }

  lemma {:induction false} NoneOpen(ws: seq<Writer>)
    requires Open(ws) == 0 && forall i :: 0 <= i < |ws| && !ws[i].open ==> ws[i].rest == []
    ensures Owed(ws) == 0
    decreases |ws|
  {
    if ws != [] {
      assert !ws[0].open;
      NoneOpen(ws[1..]);
    }
  }

  /** Where a node lies in the buffer. */
  datatype Extent = Extent(from: nat, to: nat)

  /** In the order they were taken from the arena, each behind the one before. */
  ghost predicate Apart(nodes: seq<Extent>, end: nat) {
    && (forall i :: 0 <= i < |nodes| ==> 0 < nodes[i].from <= nodes[i].to <= end)
    && (forall i, j :: 0 <= i < j < |nodes| ==> nodes[i].to <= nodes[j].from)
  }

  /** What is reserved is enough for all that is still to come, and the nodes so far lie apart in the buffer. */
  ghost predicate Account(cap: nat, n: nat, reserved: nat, ws: seq<Writer>, nodes: seq<Extent>) {
    && n <= cap && reserved <= cap
    && (Open(ws) > 0 ==> n + Owed(ws) <= reserved)
    && (forall i :: 0 <= i < |ws| ==> AllFit(ws[i].rest))
    && Apart(nodes, n)
  }

  /** The next entry of a writer has room, at any height. */
  lemma PlaceFits(cap: nat, n: nat, reserved: nat, ws: seq<Writer>, nodes: seq<Extent>, w: nat, h: nat)
    requires Account(cap, n, reserved, ws, nodes) && w < |ws| && ws[w].open && ws[w].rest != [] && 1 <= h <= MAX_HEIGHT
    ensures var e := ws[w].rest[0]; Fits(e) && !TooLarge(e) && Padded(e, h) == NodeBytes(e, h) && n + NodeBytes(e, h) + Unused(h) <= cap
  {
    var e := ws[w].rest[0];
    assert e in ws[w].rest;
    CoversEveryHeight(e);
    Changed(ws, w, ws[w]);
  }

  /** Placed behind all others, it leaves enough for the rest. */
  lemma PlaceKeeps(cap: nat, n: nat, reserved: nat, ws: seq<Writer>, nodes: seq<Extent>, w: nat, h: nat, offset: nat)
    requires Account(cap, n, reserved, ws, nodes) && w < |ws| && ws[w].open && ws[w].rest != [] && 1 <= h <= MAX_HEIGHT
    requires 0 < n <= offset <= n + ALIGN
    ensures var size := NodeBytes(ws[w].rest[0], h);
      Account(cap, n + size, reserved, ws[w := Writer(ws[w].rest[1..], true)], nodes + [Extent(offset, offset + size - ALIGN)])
  {
    PlaceFits(cap, n, reserved, ws, nodes, w, h);
    Changed(ws, w, Writer(ws[w].rest[1..], true));
  }

  datatype Outcome = Placed(offset: nat) | ArenaFull | Panics

  /** What a writer has left after an entry: an error ends the batch, a panic leaves it as it is. */
  function Left(rest: seq<Entry>, r: Outcome): seq<Entry>
    requires rest != []
  {
    match r
    case Placed(_) => rest[1..]
    case ArenaFull => []
    case Panics => rest
  }

  /** Head and tail are in the arena from the start. */
  const EMPTY := 1 + 2 * (MAX_NODE + ALIGN)

  class MemTable {
    const cap: nat
    var n: nat           // the arena's counter
    var reserved: nat
    var refs: nat
    var own: bool        // still the mutable memtable, holding a reference of its own
    ghost var writers: seq<Writer>
    ghost var nodes: seq<Extent>
    ghost var sound: bool // every entry admitted so far fits

    constructor (size: nat)
      requires EMPTY <= size < WORD
      ensures Valid() && own && sound && writers == [] && nodes == []
      ensures cap == size && n == EMPTY && Avail() == size - EMPTY
    {
      cap := size;
      n, reserved, refs, own, writers, nodes, sound := EMPTY, 0, 1, true, [], [], true;
    }

    ghost predicate Valid()
      reads this
    {
      && cap < WORD && reserved < WORD && 0 < n < cap + WORD
      && refs == Open(writers) + (if own then 1 else 0)
      && (forall i :: 0 <= i < |writers| && !writers[i].open ==> writers[i].rest == [])
      && (sound ==> Accounted())
    }

    ghost predicate Accounted()
      reads this
    {
      Account(cap, n, reserved, writers, nodes)
    }

    /** Arena.Size, which stops at the largest 32-bit number. */
    function Size(): nat
      reads this`n
    {
      if n < WORD then n else WORD - 1
    }

    /** What availBytes returns, in 32 bits. */
    function Avail(): nat
      reads this`n, this`reserved, this`refs
    {
      (cap - (if refs == 1 then Size() else reserved)) % WORD
    }

    /** With no writer under way, what was reserved and not used is given back. */
    method AvailBytes() returns (avail: nat)
      requires Valid() && own
      modifies this`reserved
      ensures Valid() && avail == Avail() == old(Avail())
      ensures sound ==> avail == cap - reserved && n + Owed(writers) <= reserved
      ensures reserved == if Open(writers) == 0 then Size() else old(reserved)
    {
      if refs == 1 {
        NoneOpen(writers);
        reserved := Size();
      }
      avail := (cap - reserved) % WORD;
    }

    /** Admits a batch, or says that the memtable is full. */
    method Prepare(batch: seq<Entry>, size: nat) returns (ok: bool)
      requires Valid() && own && Total(batch) <= size
      modifies this`reserved, this`refs, this`writers, this`sound
      ensures Valid() && writers == if ok then old(writers) + [Writer(batch, true)] else old(writers)
      ensures sound == (old(sound) && (ok ==> AllFit(batch)))
      ensures ok <==> size <= old(Avail())
      ensures old(sound) ==> (ok <==> size + (if old(Open(writers)) == 0 then n else old(reserved)) <= cap)
    {
      var avail := AvailBytes();
      ok := size <= avail;
      if ok {
        Admit(size % WORD, batch);
      }
    }

    /** The same for a caller that has computed the size in 32 bits. */
    method PrepareBySize(size: nat, ghost batch: seq<Entry>) returns (ok: bool)
      requires Valid() && own && Total(batch) <= size < WORD
      modifies this`reserved, this`refs, this`writers, this`sound
      ensures Valid() && writers == if ok then old(writers) + [Writer(batch, true)] else old(writers)
      ensures sound == (old(sound) && (ok ==> AllFit(batch)))
      ensures ok <==> size <= old(Avail())
      ensures old(sound) ==> (ok <==> size + (if old(Open(writers)) == 0 then n else old(reserved)) <= cap)
    {
      var avail := AvailBytes();
      ok := size <= avail;
      if ok {
        Admit(size, batch);
      }
    }

    method Admit(size: nat, ghost batch: seq<Entry>)
      requires Valid() && own && Total(batch) <= size < WORD
      requires sound ==> n + Owed(writers) <= reserved && reserved + size <= cap
      modifies this`reserved, this`refs, this`writers, this`sound
      ensures Valid() && writers == old(writers) + [Writer(batch, true)] && sound == (old(sound) && AllFit(batch))
    {
      Added(writers, Writer(batch, true));
      reserved := (reserved + size) % WORD;
      refs := refs + 1;
      writers := writers + [Writer(batch, true)];
      sound := sound && AllFit(batch);
    }

    /** Arena.alloc: moves the counter, and gives an aligned offset if the node with its unused links ends in the buffer. */
    method Alloc(padded: nat, overflow: nat) returns (offset: Option<nat>)
      requires cap < WORD && 0 < n < cap + WORD && padded < WORD
      modifies this`n
      ensures old(n) > cap ==> offset == None && n == old(n)
      ensures old(n) <= cap ==> n == old(n) + padded && (offset.Some? <==> n + overflow <= cap)
      ensures offset.Some? ==> offset.value % 4 == 0 && old(n) <= offset.value <= old(n) + ALIGN
    {
      if n > cap {
        return None;
      }
      n := n + padded;
      if n + overflow > cap {
        return None;
      }
      offset := Some((n - padded + ALIGN) / 4 * 4);
    }

    /**
      newNode for the next entry of writer w, whatever height was drawn. If all that was admitted fits, it
      never finds the arena full, and the node as it is written lies in the buffer behind all others.
     */
    method Add(w: nat, e: Entry, h: nat) returns (r: Outcome)
      requires Valid() && w < |writers| && writers[w].open && writers[w].rest != [] && e == writers[w].rest[0]
      requires 1 <= h <= MAX_HEIGHT
      modifies this`n, this`writers, this`nodes
      ensures Valid()
      ensures writers == old(writers)[w := Writer(Left(old(writers[w].rest), r), true)]
      ensures r.Panics? <==> TooLarge(e)
      ensures r.Placed? <==> !TooLarge(e) && old(n) + Padded(e, h) + Unused(h) <= cap
      ensures nodes == if r.Placed? then old(nodes) + [Extent(r.offset, r.offset + NodeBytes(e, h) - ALIGN)] else old(nodes)
      ensures sound ==> r.Placed? && r.offset % 4 == 0 && old(n) <= r.offset && r.offset + NodeBytes(e, h) - ALIGN <= n && n + Unused(h) <= cap
    {
      hide Account, Fits, Total, Owed, Open;
      if sound {
        PlaceFits(cap, n, reserved, writers, nodes, w, h);
      }
      if TooLarge(e) {
        Changed(writers, w, writers[w]);
        return Panics;
      }
      var offset := Alloc(Padded(e, h), Unused(h));
      r := if offset.Some? then Placed(offset.value) else ArenaFull;
      if sound {
        PlaceKeeps(cap, old(n), reserved, writers, nodes, w, h, r.offset);
      }
      ghost var next := Writer(Left(writers[w].rest, r), true);
      Changed(writers, w, next);
      writers := writers[w := next];
      if r.Placed? {
        nodes := nodes + [Extent(r.offset, r.offset + NodeBytes(e, h) - ALIGN)];
      }
    }

    /** A writer is done. The memtable may be flushed exactly when it was the last one and the table is no longer mutable. */
    method WriterUnref(w: nat) returns (last: bool)
      requires Valid() && w < |writers| && writers[w].open && writers[w].rest == []
      modifies this`refs, this`writers
      ensures Valid() && writers == old(writers)[w := Writer([], false)]
      ensures last <==> !own && Open(writers) == 0
    {
      Changed(writers, w, Writer([], false));
      refs := refs - 1;
      writers := writers[w := Writer([], false)];
      last := refs == 0;
    }

    /** The table is replaced as the mutable one. */
    method Retire() returns (last: bool)
      requires Valid() && own
      modifies this`refs, this`own
      ensures Valid() && !own && (last <==> Open(writers) == 0)
    {
      refs, own := refs - 1, false;
      last := refs == 0;
    }
  }

  /** Where it fails: an entry of over 4 GiB is admitted to 270 free bytes, and its node does not end in the buffer. */
  method WrappedIsAdmitted() returns (m: MemTable, ok: bool, r: Outcome)
    ensures m.cap == EMPTY + 270 && ok && r.Placed? && |m.nodes| == 1 && m.nodes[0].to > m.cap
  {
    m := new MemTable(EMPTY + 270);
    var e := Entry(100, WORD - 1);
    assert Total([e]) == 270;
    ok := m.Prepare([e], 270);
    r := m.Add(0, e, 1);
  }
}
