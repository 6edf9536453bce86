/**
  Reading a log back (internal/record/record.go): the Reader with its one-block buffer, and the loop
  that recovery runs over it. Each method is proved to do what LogFormat's functions say.
 */
module LogReader {
  import opened Common
  import opened LogFormat

  class Reader {
    const c: Codec
    const file: Bytes      // what the underlying reader will yield
    var pos: nat           // how much of it has been taken
    var blockNum: int
    var begin: nat         // buf[begin..end] is the unread payload of the current chunk
    var end: nat
    var n: nat             // buf[..n] is valid
    var last: bool
    var err: Option<Error>
    const buf: array<Byte>

    constructor (c: Codec, file: Bytes)
      ensures Valid() && this.c == c && this.file == file && Block() == 0 && end == 0 && err == None && fresh(buf)
    {
      this.c, this.file := c, file;
      pos, blockNum, begin, end, n, last, err := 0, -1, 0, 0, 0, false, None;
      buf := new Byte[BLOCK];
    }

    /** The buffer holds the current block. */
    ghost predicate Valid()
      reads this, buf
    {
      && buf.Length == BLOCK && begin <= end <= n <= BLOCK
      && if blockNum < 0 then blockNum == -1 && pos == 0 && n == 0
         else blockNum * BLOCK < |file| && buf[..n] == LogFormat.Block(file, blockNum) && pos == blockNum * BLOCK + n
    }

    /** The block the reader stands in. */
    ghost function Block(): nat
      reads this`blockNum
    {
      if blockNum < 0 then 0 else blockNum
    }

    ghost predicate Holds(item: Item)
      reads this, buf
    {
      && Valid() && item.Item? && 0 <= blockNum && item.k == blockNum && item.off == end
      && item.payload == buf[begin..end] && item.last == last
    }

    /** io.ReadFull into the buffer; false at the end of the file. */
    method ReadFull() returns (ok: bool)
      requires Valid() && end <= n && (blockNum < 0 || n == BLOCK)
      modifies this`pos, this`begin, this`end, this`n, this`blockNum, buf
      ensures ok == (old(pos) < |file|)
      ensures Valid() && err == old(err)
      ensures ok ==> blockNum == old(blockNum) + 1 && begin == 0 && end == 0 && pos > old(pos)
      ensures !ok ==> blockNum == old(blockNum) && end == old(end) && begin == old(begin) && pos == old(pos) && n == old(n)
    {
      ok := pos < |file|;
      if ok {
        var m := if |file| - pos < BLOCK then |file| - pos else BLOCK;
        var i := 0;
        while i < m
          invariant i <= m
          invariant buf[..i] == file[pos..pos + i]
          modifies buf
        {
          buf[i] := file[pos + i];
          i := i + 1;
        }
        begin, end, n, pos, blockNum := 0, 0, m, pos + m, blockNum + 1;
      }
    }

    method NextChunk(want: bool) returns (e: Option<Error>)
      requires Valid()
      modifies this`pos, this`begin, this`end, this`n, this`blockNum, this`last, buf
      ensures var r := Parse(c, file, old(Block()), old(end), want);
        if r.Stop? then e == Some(r.err) else e == None && Holds(r)
      ensures old(pos) <= pos && (e == None ==> Past(old(pos), old(n), old(end)))
    {
      ghost var r := Parse(c, file, Block(), end, want);
      var done := false;
      e := None;
      while !done
        invariant old(pos) <= pos
        invariant !done ==> Valid() && r == Parse(c, file, Block(), end, want) && Ahead(old(pos), old(n), old(end))
        invariant done ==> if r.Stop? then e == Some(r.err) else e == None && Holds(r) && Past(old(pos), old(n), old(end))
        decreases !done, |file| - pos, n - end
        modifies this`pos, this`begin, this`end, this`n, this`blockNum, this`last, buf
      {
        done, e := Pass(want);
      }
    }

    /** One pass of the loop. */
    method Pass(want: bool) returns (done: bool, e: Option<Error>)
      requires Valid()
      modifies this`pos, this`begin, this`end, this`n, this`blockNum, this`last, buf
      ensures old(pos) <= pos
      ensures done ==> var r := Parse(c, file, old(Block()), old(end), want);
        if r.Stop? then e == Some(r.err) else e == None && Holds(r) && Past(old(pos), old(n), old(end))
      ensures !done ==> Valid() && Parse(c, file, Block(), end, want) == Parse(c, file, old(Block()), old(end), want)
      ensures !done ==> old(pos) < pos || (old(pos) == pos && old(n) == n && old(end) < end)
    {
      hide Scan;
      if end + LEGACY <= n {
        done, e := TakeChunk(want);
      } else if n < BLOCK && 0 <= blockNum {
        done, e := true, Some(if want && end == n then EOF else Invalid);
      } else {
        var ok := ReadFull();
        done, e := !ok, Some(if want then EOF else UnexpectedEOF);
      }
    }

    ghost predicate Ahead(p: nat, m: nat, off: nat)
      reads this`pos, this`n, this`end
    {
      p < pos || (p == pos && m == n && off <= end)
    }

    ghost predicate Past(p: nat, m: nat, off: nat)
      reads this`pos, this`n, this`begin
    {
      p < pos || (p == pos && m == n && off < begin)
    }

    /** One pass of the loop on a header that fits. */
    method TakeChunk(want: bool) returns (done: bool, e: Option<Error>)
      requires Valid() && end + LEGACY <= n
      modifies this`begin, this`end, this`last
      ensures done ==> var r := Parse(c, file, Block(), old(end), want);
        if r.Stop? then e == Some(r.err) else e == None && Holds(r) && old(end) < begin
      ensures !done ==> Valid() && old(end) < end && Parse(c, file, Block(), end, want) == Parse(c, file, Block(), old(end), want)
    {
      hide Scan;
      var h := ReadHeader();
      done, e := true, None;
      match h {
        case Skip => end, done := n, false;
        case Foreign => e := Some(if want then EOF else Invalid);
        case Bad(bad) => e := Some(bad);
        case Good(kind, from, to) =>
          begin, end := from, to;
          if want && kind != FULL && kind != FIRST {
            done := false;
          } else {
            last := kind == FULL || kind == LAST;
            SliceOfPrefix(buf, n, from, to);
          }
      }
    }

    /** The header at end, checked as the code checks it. */
    method ReadHeader() returns (h: Head)
      requires Valid() && end + LEGACY <= n
      ensures h == Scan(c, buf[..n], end)
    {
      var b := buf[..n];
      var sum, len, kind := Get32(b, end), Get16(b, end + 4), b[end + 6];
      if sum == 0 && len == 0 && kind == 0 {
        return if end + HEADER > n then Skip else Bad(Zeroed);
      }
      var size, kind' := LEGACY, kind;
      if FULL + RECYCLABLE <= kind <= LAST + RECYCLABLE {
        size := HEADER;
        if end + size > n {
          return Bad(Invalid);
        }
        if Get32(b, end + 7) != c.log {
          return Foreign;
        }
        kind' := kind - RECYCLABLE;
      }
      var first := end + size;
      var limit := first + len;
      if limit > n {
        return Bad(Invalid);
      }
      SliceOfPrefix(buf, n, end + 6, limit);
      if sum != Sum(c, buf[first - size + 6..limit]) {
        return Bad(Invalid);
      }
      return Good(kind', first, limit);
    }
  
    /** The rest of the current record. */
    ghost function Left(): Record
      requires Valid()
      reads this, buf
    {
      Prepend(buf[begin..end], Rest(c, file, Block(), end, last))
    }

    /** Moves to the next record; an earlier error is final. */
    method Next() returns (e: Option<Error>)
      requires Valid()
      modifies this`pos, this`begin, this`end, this`n, this`blockNum, this`last, this`err, buf
      ensures e == err && (old(err) != None ==> e == old(err)) && old(pos) <= pos
      ensures old(err) == None ==> var r := ReadOne(c, file, old(Block()), old(end));
        if e == None then Valid() && 0 <= blockNum && Left() == r else r == Fail(e.value)
      ensures e == None ==> Past(old(pos), old(n), old(end))
    {
      if err != None {
        return err;
      }
      begin := end;
      err := NextChunk(true);
      return err;
    }

    /** Up to max bytes of the current record; EOF once it is exhausted. */
    method Read(max: nat) returns (data: Bytes, e: Option<Error>)
      requires Valid() && err == None && 0 <= blockNum
      modifies this`pos, this`begin, this`end, this`n, this`blockNum, this`last, this`err, buf
      ensures e == None ==> Valid() && err == None && 0 <= blockNum && |data| <= max && (0 < max ==> data != [])
      ensures e == None ==> Prepend(data, Left()) == old(Left()) && (data != [] ==> Past(old(pos), old(n), old(begin)))
      ensures e != None ==> data == [] && ReadEnds(e.value, old(Left())) && old(pos) <= pos
    {
      e := Fill();
      data := [];
      if e == None {
        data := Copy(max);
      }
    }

    method Copy(max: nat) returns (data: Bytes)
      requires Valid() && begin < end
      modifies this`begin
      ensures Valid() && |data| <= max && (0 < max ==> data != []) && begin == old(begin) + |data|
      ensures Prepend(data, Left()) == old(Left())
    {
      hide Rest, Parse;
      var m := if end - begin < max then end - begin else max;
      data := buf[begin..begin + m];
      SliceSplits(buf, begin, begin + m, end);
      CopyKeeps(data, buf[begin + m..end], Rest(c, file, Block(), end, last));
      begin := begin + m;
    }

    /** The record ended here, or could not be read to its end. */
    ghost predicate ReadEnds(e: Error, left: Record)
      reads this, buf
    {
      if err == None then e == EOF && Valid() && 0 <= blockNum && left == Record([], Block(), end)
      else err == Some(e) && left == Fail(e)
    }

    lemma NothingLeft()
      requires Valid() && begin == end && last
      ensures Left() == Record([], Block(), end)
    {
    }

    /** Reads chunks until one has unread payload. */
    method Fill() returns (e: Option<Error>)
      requires Valid() && err == None && 0 <= blockNum
      modifies this`pos, this`begin, this`end, this`n, this`blockNum, this`last, this`err, buf
      ensures e == None ==> Valid() && err == None && 0 <= blockNum && begin < end && Left() == old(Left())
      ensures e == None ==> pos > old(pos) || (pos == old(pos) && n == old(n) && begin >= old(begin))
      ensures e != None ==> ReadEnds(e.value, old(Left())) && old(pos) <= pos
    {
      hide Rest, Prepend;
      ghost var left := Left();
      while begin == end
        invariant Valid() && err == None && 0 <= blockNum && Left() == left
        invariant pos > old(pos) || (pos == old(pos) && n == old(n) && begin >= old(begin))
        decreases |file| - pos, n - begin
        modifies this`pos, this`begin, this`end, this`n, this`blockNum, this`last, this`err, buf
      {
        if last {
          NothingLeft();
          return Some(EOF);
        }
        err := FillOne(left);
        if err != None {
          return err;
        }
      }
      return None;
    }

    method FillOne(ghost left: Record) returns (e: Option<Error>)
      requires Valid() && 0 <= blockNum && begin == end && !last && Left() == left
      modifies this`pos, this`begin, this`end, this`n, this`blockNum, this`last, buf
      ensures old(pos) <= pos
      ensures e == None ==> Valid() && 0 <= blockNum && Left() == left && Past(old(pos), old(n), old(end))
      ensures e != None ==> left == Fail(e.value)
    {
      e := NextChunk(false);
    }
  
    /** io.Copy: reads the current record to its end, at most size bytes at a time. */
    method Drain(size: nat) returns (data: Bytes, e: Option<Error>)
      requires Valid() && err == None && 0 <= blockNum && 0 < size
      modifies this`pos, this`begin, this`end, this`n, this`blockNum, this`last, this`err, buf
      ensures old(pos) <= pos
      ensures e == None ==> Valid() && err == None && 0 <= blockNum && old(Left()) == Record(data, Block(), end)
      ensures e != None ==> old(Left()) == Fail(e.value)
    {
      ghost var left := Left();
      data, e := [], None;
      while e == None
        invariant old(pos) <= pos
        invariant e == None ==> Valid() && err == None && 0 <= blockNum && Prepend(data, Left()) == left
        invariant e != None ==> DrainEnds(e.value, data, left)
        decreases e == None, |file| - pos, n - begin
        modifies this`pos, this`begin, this`end, this`n, this`blockNum, this`last, this`err, buf
      {
        data, e := DrainMore(size, data, left);
      }
      if e == Some(EOF) && err == None {
        e := None;
      }
    }

    ghost predicate DrainEnds(e: Error, data: Bytes, left: Record)
      reads this, buf
    {
      if err == None then e == EOF && Valid() && 0 <= blockNum && left == Record(data, Block(), end)
      else err == Some(e) && left == Fail(e)
    }

    method DrainMore(size: nat, data: Bytes, ghost left: Record) returns (data': Bytes, e: Option<Error>)
      requires Valid() && err == None && 0 <= blockNum && 0 < size && Prepend(data, Left()) == left
      modifies this`pos, this`begin, this`end, this`n, this`blockNum, this`last, this`err, buf
      ensures old(pos) <= pos
      ensures e == None ==> Valid() && err == None && 0 <= blockNum && Prepend(data', Left()) == left && Past(old(pos), old(n), old(begin))
      ensures e != None ==> DrainEnds(e.value, data', left)
    {
      ghost var before := Left();
      var more;
      more, e := Read(size);
      data' := data + more;
      if e == None {
        PrependTwice(data, more, Left());
      }
    }
  }

  lemma SliceOfPrefix(a: array<Byte>, n: nat, i: nat, j: nat)
    requires i <= j <= n <= a.Length
    ensures a[..n][i..j] == a[i..j]
  {
  }

  lemma SliceSplits(a: array<Byte>, i: nat, m: nat, j: nat)
    requires i <= m <= j <= a.Length
    ensures a[i..j] == a[i..m] + a[m..j]
  {
  }

  lemma CopyKeeps(data: Bytes, more: Bytes, r: Record)
    ensures Prepend(data, Prepend(more, r)) == Prepend(data + more, r)
  {
    PrependTwice(data, more, r);
  }

  lemma PrependTwice(p: Bytes, q: Bytes, r: Record)
    ensures Prepend(p, Prepend(q, r)) == Prepend(p + q, r)
  {
    if r.Record? {
      assert p + (q + r.payload) == p + q + r.payload;
    }
  }

  /** The loop recovery runs: records until the end of the file or the first error. */
  method Replay(c: Codec, file: Bytes, size: nat) returns (records: seq<Bytes>, e: Error)
    requires 0 < size
    ensures (records, e) == ReadAll(c, file, 0, 0)
  {
    var r := new Reader(c, file);
    ghost var all := ReadAll(c, file, 0, 0);
    var more: Option<Error> := None;
    records := [];
    assert records + all.0 == all.0;
    while more == None
      invariant r.c == c && r.file == file && fresh(r) && fresh(r.buf)
      invariant more == None ==> r.Valid() && r.err == None && Continues(all, records, ReadAll(c, file, r.Block(), r.end))
      invariant more != None ==> all == (records, more.value)
      decreases more == None, |file| - r.pos, r.n - r.end
    {
      records, more := ReplayOne(r, size, records, all);
    }
    e := more.value;
  }

  ghost predicate Continues(all: (seq<Bytes>, Error), records: seq<Bytes>, rest: (seq<Bytes>, Error)) {
    all == (records + rest.0, rest.1)
  }

  method ReplayOne(r: Reader, size: nat, records: seq<Bytes>, ghost all: (seq<Bytes>, Error))
    returns (records': seq<Bytes>, e: Option<Error>)
    requires 0 < size && r.Valid() && r.err == None
    requires Continues(all, records, ReadAll(r.c, r.file, r.Block(), r.end))
    modifies r, r.buf
    ensures old(r.pos) <= r.pos
    ensures e == None ==> r.Valid() && r.err == None && Continues(all, records', ReadAll(r.c, r.file, r.Block(), r.end))
    ensures e == None ==> old(r.pos) < r.pos || (old(r.pos) == r.pos && old(r.n) == r.n && old(r.end) < r.end)
    ensures e != None ==> all == (records', e.value)
  {
    records' := records;
    e := r.Next();
    if e == None {
      var data;
      data, e := r.Drain(size);
      if e == None {
        OneMore(all, records, data, ReadAll(r.c, r.file, r.Block(), r.end));
        records' := records + [data];
      }
    }
    assert records + [] == records;
  }

  lemma OneMore(all: (seq<Bytes>, Error), records: seq<Bytes>, data: Bytes, rest: (seq<Bytes>, Error))
    requires Continues(all, records, ([data] + rest.0, rest.1))
    ensures Continues(all, records + [data], rest)
  {
    assert records + ([data] + rest.0) == (records + [data]) + rest.0;
  }
}
