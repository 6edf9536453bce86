/**
  Writing the log (internal/record/log_writer.go): fragments put together in place in a 32 KiB block
  buffer, proved against LogFormat. How blocks reach the file is the subject of LogFlush.
 */
module LogWriter {
  import opened Common
  import opened LogFormat

  class LogWriter {
    const c: Codec
    var queued: seq<Bytes>     // blocks handed to the flush loop, in order
    var block: array<Byte>
    var written: nat
    var blockNum: nat

    constructor (c: Codec)
      ensures Valid() && Contents() == EMPTY && this.c == c && fresh(block)
    {
      this.c, queued, written, blockNum := c, [], 0, 0;
      block := new Byte[BLOCK];
    }

    ghost predicate Valid()
      reads this, block
    {
      block.Length == BLOCK && written + HEADER <= BLOCK && blockNum == |queued| && Ready(Log(queued, block[..written]))
    }

    ghost function Contents(): Log
      reads this, block
      requires written <= block.Length
    {
      Log(queued, block[..written])
    }

    method Store(at: nat, s: Bytes)
      requires at + |s| <= block.Length
      modifies block
      ensures block[..] == old(block[..at]) + s + old(block[at + |s|..])
    {
      var i := 0;
      while i < |s|
        invariant i <= |s|
        invariant forall j :: 0 <= j < i ==> block[at + j] == s[j]
        invariant forall j :: 0 <= j < block.Length && !(at <= j < at + i) ==> block[j] == old(block[j])
      {
        block[at + i] := s[i];
        i := i + 1;
      }
    }

    /** The chunk goes in header last: kind, log number and payload first, then their checksum and length. */
    method PutChunk(kind: Byte, p: Bytes)
      requires Valid() && written + HEADER + |p| <= BLOCK
      modifies block
      ensures block[..written + HEADER + |p|] == old(block[..written]) + Chunk(c, kind, p)
    {
      var i, j := written, written + HEADER + |p|;
      PutBody(kind, c.log, p);
      PutHead(U32(Sum(c, block[i + 6..j])), U16(|p|), j);
    }

    method PutBody(kind: Byte, log: nat, p: Bytes)
      requires block.Length == BLOCK && written + HEADER + |p| <= BLOCK
      modifies block
      ensures block[..written] == old(block[..written])
      ensures block[written + 6..written + HEADER + |p|] == [kind] + U32(log) + p
    {
      var i := written;
      Store(i + 6, [kind]);
      Store(i + 7, U32(log));
      Store(i + HEADER, p);
      assert block[i + 6..i + HEADER + |p|] == [kind] + U32(log) + p;
    }

    method PutHead(sum: Bytes, len: Bytes, ghost j: nat)
      requires block.Length == BLOCK && written + HEADER <= j <= BLOCK && |sum| == 4 && |len| == 2
      modifies block
      ensures block[..j] == old(block[..written]) + (sum + len + old(block[written + 6..j]))
    {
      ghost var body := block[written + 6..j];
      Store(written, sum);
      Store(written + 4, len);
      HeaderParts(block, written, j);
      assert forall k :: 0 <= k < |body| ==> block[written + 6..j][k] == body[k];
      assert block[..written] == old(block[..written]) && block[written + 6..j] == body;
      assert block[written..written + 4] == sum && block[written + 4..written + 6] == len;
    }

    method EmitFragment(n: nat, p: Bytes) returns (rest: Bytes)
      requires Valid()
      modifies this`written, this`queued, this`block, this`blockNum, block
      ensures Valid() && (block == old(block) || fresh(block))
      ensures Contents() == Pad(Put(c, old(Contents()), n == 0, p))
      ensures rest == p[Taken(old(Contents()), p)..]
    {
      var room := BLOCK - written - HEADER;
      var isLast := room >= Int32(|p|);
      var r := if room < |p| then room else |p|;
      PutChunk(Kind(n == 0, isLast), p[..r]);
      written := written + HEADER + r;
      if BLOCK - written < HEADER {
        QueueBlock();
      }
      rest := p[r..];
    }

    /** Fills the block with zeros, queues it and takes another, whose contents are whatever they were. */
    method QueueBlock()
      requires block.Length == BLOCK && BLOCK - HEADER < written <= BLOCK && Sized(Contents()) && blockNum == |queued|
      modifies this`written, this`queued, this`block, this`blockNum, block
      ensures Valid() && fresh(block) && Contents() == Pad(old(Contents()))
    {
      ghost var cur := block[..written];
      Store(written, Zeros(BLOCK - written));
      assert block[..] == cur + Zeros(BLOCK - written);
      queued := queued + [block[..]];
      block := new Byte[BLOCK];
      written, blockNum := 0, blockNum + 1;
      assert block[..0] == [];
    }

    /** Returns the offset just past the record. */
    method SyncRecord(p: Bytes) returns (offset: nat)
      requires Valid()
      modifies this`written, this`queued, this`block, this`blockNum, block
      ensures Valid() && (block == old(block) || fresh(block))
      ensures Contents() == Write(c, old(Contents()), true, p) && offset == Size(Contents())
    {
      ghost var result := Write(c, Contents(), true, p);
      var rest := EmitFragment(0, p);
      var i := 1;
      while rest != []
        invariant Valid() && 0 < i && (block == old(block) || fresh(block))
        invariant result == if rest == [] then Contents() else Write(c, Contents(), false, rest)
        decreases |rest|, written
      {
        rest := EmitFragment(i, rest);
        i := i + 1;
      }
      offset := blockNum * BLOCK + written;
    }

    /** The last bytes of the log; afterwards nothing more may be written. */
    method EmitEOFTrailer()
      requires Valid()
      modifies this`written, block
      ensures block.Length == BLOCK && written <= BLOCK
      ensures Contents() == Log(old(queued), old(block[..written]) + Trailer(c))
    {
      hide U32, U16;
      var i, j := written, written + HEADER;
      var none: Bytes := [];
      PutBody(FULL + RECYCLABLE, (c.log + 1) % WORD, none);
      PutHead(U32(0), U16(0), j);
      TrailerParts(c);
      written := j;
    }
  }

  lemma HeaderParts(a: array<Byte>, i: nat, j: nat)
    requires i + 6 <= j <= a.Length
    ensures a[..j] == a[..i] + (a[i..i + 4] + a[i + 4..i + 6] + a[i + 6..j])
  {
  }

  lemma TrailerParts(c: Codec)
    ensures var none: Bytes := []; Trailer(c) == U32(0) + U16(0) + ([FULL + RECYCLABLE] + U32((c.log + 1) % WORD) + none)
  {
    hide U32, U16;
  }
}
