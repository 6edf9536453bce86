/**
  The write-ahead log's format (internal/record/log_writer.go, internal/record/record.go): records cut
  into checksummed chunks that never cross a 32 KiB block. The writer's half and the reader's half
  are specified here as functions on values; LogReader and LogWriter hold the code that computes them.
 */
module LogFormat {
  import opened Common

  const BLOCK := 32768
  const HEADER := 11   // recyclable header
  const LEGACY := 7    // legacy header

  const FULL := 1
  const FIRST := 2
  const MIDDLE := 3
  const LAST := 4
  const RECYCLABLE := 4 // added to the four kinds in chunks with the longer header

  type Byte = x: int | 0 <= x < 256
  type Bytes = seq<Byte>

  /** The checksum and the low 32 bits of the log's file number. */
  datatype Codec = Codec(sum: Bytes -> nat, log: nat)

  predicate Fits(c: Codec) { c.log < WORD }

  function Sum(c: Codec, b: Bytes): (r: nat)
    ensures r < WORD
  {
    c.sum(b) % WORD
  }

  // ----- Little-endian words -----

  function U16(x: nat): (r: Bytes)
    ensures |r| == 2
  {
    [x % 256, x / 256 % 256]
  }

  function U32(x: nat): (r: Bytes)
    ensures |r| == 4
  {
    [x % 256, x / 256 % 256, x / 65536 % 256, x / 16777216 % 256]
  }

  function Get16(b: Bytes, i: nat): nat
    requires i + 2 <= |b|
  {
    (b[i] as int) + 256 * (b[i + 1] as int)
  }

  function Get32(b: Bytes, i: nat): nat
    requires i + 4 <= |b|
  {
    (b[i] as int) + 256 * (b[i + 1] as int) + 65536 * (b[i + 2] as int) + 16777216 * (b[i + 3] as int)
  }

  lemma Digits(x: nat)
    requires x < WORD
    ensures x % 256 + 256 * (x / 256 % 256) + 65536 * (x / 65536 % 256) + 16777216 * (x / 16777216 % 256) == x
  {
    assert x / 65536 == x / 256 / 256 && x / 16777216 == x / 65536 / 256;
  }

  lemma Get32U32(b: Bytes, i: nat, x: nat)
    requires x < WORD && i + 4 <= |b| && b[i..i + 4] == U32(x)
    ensures Get32(b, i) == x
  {
    Digits(x);
    var w := b[i..i + 4];
    assert b[i + 0] == w[0] && b[i + 1] == w[1] && b[i + 2] == w[2] && b[i + 3] == w[3];
    assert b[i + 0] == U32(x)[0] && b[i + 1] == U32(x)[1] && b[i + 2] == U32(x)[2] && b[i + 3] == U32(x)[3];
  }

  lemma Get16U16(b: Bytes, i: nat, x: nat)
    requires x < 65536 && i + 2 <= |b| && b[i..i + 2] == U16(x)
    ensures Get16(b, i) == x
  {
    assert b[i + 0] == b[i..i + 2][0] && b[i + 1] == b[i..i + 2][1];
  }

  // ----- Chunks -----

  /** What the checksum covers: kind, log number and payload. */
  function Body(c: Codec, kind: Byte, p: Bytes): Bytes {
    [kind] + U32(c.log) + p
  }

  function Chunk(c: Codec, kind: Byte, p: Bytes): (r: Bytes)
    ensures |r| == HEADER + |p|
  {
    U32(Sum(c, Body(c, kind, p))) + U16(|p|) + Body(c, kind, p)
  }

  /** The header written on Close: an empty chunk of the next log. */
  function Trailer(c: Codec): (r: Bytes)
    ensures |r| == HEADER
  {
    U32(0) + U16(0) + [FULL + RECYCLABLE] + U32((c.log + 1) % WORD)
  }

  function Kind(first: bool, last: bool): (r: Byte)
    ensures 5 <= r <= 8
  {
    RECYCLABLE + if last then (if first then FULL else LAST) else (if first then FIRST else MIDDLE)
  }

  /** The bytes of a chunk: checksum, length, kind and log number, the least byte first, then the payload. */
  lemma ChunkLayout(c: Codec, first: bool, last: bool, p: Bytes)
    requires Fits(c) && |p| < 65536
    ensures var r := Chunk(c, Kind(first, last), p);
      && |r| == 11 + |p| && r[11..] == p
      && r[0] as int + 256 * r[1] as int + 65536 * r[2] as int + 16777216 * r[3] as int == Sum(c, r[6..])
      && r[4] as int + 256 * r[5] as int == |p|
      && r[6] == (if first && last then 5 else if first then 6 else if last then 8 else 7)
      && r[7] as int + 256 * r[8] as int + 65536 * r[9] as int + 16777216 * r[10] as int == c.log
  {
    var body := Body(c, Kind(first, last), p);
    var r := Chunk(c, Kind(first, last), p);
    assert r[6..] == body && r[11..] == p;
    Digits(Sum(c, body));
    Digits(c.log);
    ChunkBytes(c, Kind(first, last), p);
  }

  lemma ChunkBytes(c: Codec, kind: Byte, p: Bytes)
    ensures var r, s := Chunk(c, kind, p), U32(Sum(c, Body(c, kind, p)));
      && r[0] == s[0] && r[1] == s[1] && r[2] == s[2] && r[3] == s[3] && r[4] == U16(|p|)[0] && r[5] == U16(|p|)[1] && r[6] == kind
      && r[7] == U32(c.log)[0] && r[8] == U32(c.log)[1] && r[9] == U32(c.log)[2] && r[10] == U32(c.log)[3]
  {
    hide U32, U16;
  }

  // ----- The reader -----

  datatype Error = EOF | UnexpectedEOF | Zeroed | Invalid

  /** End of file, or an error recovery treats like one. */
  predicate Accepted(e: Error) {
    e == EOF || IsInvalidRecord(e)
  }

  predicate IsInvalidRecord(e: Error) {
    e == Zeroed || e == Invalid || e == UnexpectedEOF
  }

  /** What stands at an offset of a block. */
  datatype Head = Skip | Foreign | Bad(err: Error) | Good(kind: Byte, begin: nat, end: nat)

  function Scan(c: Codec, b: Bytes, off: nat): (r: Head)
    requires off + LEGACY <= |b|
    ensures r.Good? ==> off + LEGACY <= r.begin <= r.end <= |b|
  {
    var sum, len, kind := Get32(b, off), Get16(b, off + 4), b[off + 6];
    if sum == 0 && len == 0 && kind == 0 then
      if off + HEADER > |b| then Skip else Bad(Zeroed)
    else
      var recyclable := 5 <= kind <= 8;
      if recyclable && off + HEADER > |b| then Bad(Invalid)
      else if recyclable && Get32(b, off + 7) != c.log then Foreign
      else
        var begin := off + if recyclable then HEADER else LEGACY;
        var end := begin + len;
        if end > |b| || sum != Sum(c, b[off + 6..end]) then Bad(Invalid)
        else Good(if recyclable then kind - RECYCLABLE else kind, begin, end)
  }

  lemma Word32(b: Bytes, i: nat)
    requires i + 4 <= |b|
    ensures U32(Get32(b, i)) == b[i..i + 4] && Get32(b, i) < WORD
  {
    var x := Get32(b, i);
    assert x / 256 == (b[i + 1] as int) + 256 * (b[i + 2] as int) + 65536 * (b[i + 3] as int);
    assert x / 65536 == (b[i + 2] as int) + 256 * (b[i + 3] as int);
    assert x / 16777216 == b[i + 3] as int;
  }

  lemma Word16(b: Bytes, i: nat)
    requires i + 2 <= |b|
    ensures U16(Get16(b, i)) == b[i..i + 2] && Get16(b, i) < 65536
  {
  }

  /**
    The reader accepts a chunk with the longer header only if its bytes are exactly what the writer of this log
    writes for that kind and payload.
   */
  lemma ScanIsWritten(c: Codec, b: Bytes, off: nat)
    requires off + LEGACY <= |b| && Scan(c, b, off).Good? && 5 <= b[off + 6] <= 8
    ensures var r := Scan(c, b, off); r.begin == off + HEADER && r.kind == b[off + 6] - RECYCLABLE && b[off..r.end] == Chunk(c, b[off + 6], b[r.begin..r.end])
  {
    hide U32, U16, Get32, Get16;
    var r := Scan(c, b, off);
    Word32(b, off);
    Word16(b, off + 4);
    Word32(b, off + 7);
    assert b[off + 6..r.end] == [b[off + 6]] + b[off + 7..off + 11] + b[off + 11..r.end];
    assert b[off..r.end] == b[off..off + 4] + b[off + 4..off + 6] + b[off + 6..r.end];
  }

  /** The k-th block of a file; the last one may be short. */
  function Block(file: Bytes, k: nat): (b: Bytes)
    requires k * BLOCK < |file|
    ensures 0 < |b| <= BLOCK && (|b| < BLOCK ==> k * BLOCK + |b| == |file|)
    ensures k * BLOCK + |b| <= |file| && b == file[k * BLOCK..k * BLOCK + |b|]
  {
    file[k * BLOCK..if |file| < (k + 1) * BLOCK then |file| else (k + 1) * BLOCK]
  }

  datatype Item = Item(payload: Bytes, last: bool, k: nat, off: nat) | Stop(err: Error)

  /** The next chunk at or after offset off of block k; want: only the start of a record will do. */
  function Parse(c: Codec, file: Bytes, k: nat, off: nat, want: bool): (r: Item)
    requires off <= BLOCK
    ensures r.Item? ==> r.off <= BLOCK && r.k * BLOCK < |file| && (k < r.k || (k == r.k && off < r.off))
    decreases |file| - k * BLOCK, BLOCK - off
  {
    if |file| <= k * BLOCK then Stop(if want then EOF else UnexpectedEOF)
    else
      var b := Block(file, k);
      if off + LEGACY <= |b| then
        match Scan(c, b, off)
        case Skip => Parse(c, file, k, |b|, want)
        case Foreign => Stop(if want then EOF else Invalid)
        case Bad(e) => Stop(e)
        case Good(kind, begin, end) =>
          if want && kind != FULL && kind != FIRST then Parse(c, file, k, end, want)
          else Item(b[begin..end], kind == FULL || kind == LAST, k, end)
      else if |b| < BLOCK then Stop(if want && off == |b| then EOF else Invalid)
      else Parse(c, file, k + 1, 0, want)
  }

  /** A whole record and where it ends, or the error met before its end. */
  datatype Record = Record(payload: Bytes, k: nat, off: nat) | Fail(err: Error)

  /** The rest of a record after a chunk that ended at (k, off). */
  function Rest(c: Codec, file: Bytes, k: nat, off: nat, last: bool): (r: Record)
    requires off <= BLOCK
    ensures r.Record? ==> r.off <= BLOCK && (k < r.k || (k == r.k && off <= r.off))
    ensures r.Record? && (r.k, r.off) != (k, off) ==> r.k * BLOCK < |file|
    decreases |file| - k * BLOCK, BLOCK - off
  {
    if last then Record([], k, off)
    else
      match Parse(c, file, k, off, false)
      case Stop(e) => Fail(e)
      case Item(p, l, k', off') => Prepend(p, Rest(c, file, k', off', l))
  }

  function Prepend(p: Bytes, r: Record): Record {
    if r.Record? then r.(payload := p + r.payload) else r
  }

  function ReadOne(c: Codec, file: Bytes, k: nat, off: nat): (r: Record)
    requires off <= BLOCK
    ensures r.Record? ==> r.off <= BLOCK && r.k * BLOCK < |file| && (k < r.k || (k == r.k && off < r.off))
  {
    match Parse(c, file, k, off, true)
    case Stop(e) => Fail(e)
    case Item(p, last, k', off') => Prepend(p, Rest(c, file, k', off', last))
  }

  /** Every record from (k, off) on, and the error that ended the reading. */
  function ReadAll(c: Codec, file: Bytes, k: nat, off: nat): (seq<Bytes>, Error)
    requires off <= BLOCK
    decreases |file| - k * BLOCK, BLOCK - off
  {
    match ReadOne(c, file, k, off)
    case Fail(e) => ([], e)
    case Record(p, k', off') => var rest := ReadAll(c, file, k', off'); ([p] + rest.0, rest.1)
  }

  // ----- The writer -----

  /** Full blocks and the block being filled. */
  datatype Log = Log(full: seq<Bytes>, cur: Bytes)

  predicate Sized(l: Log) {
    forall k :: 0 <= k < |l.full| ==> |l.full[k]| == BLOCK
  }

  /** Between fragments there is always room for a header. */
  predicate Ready(l: Log) {
    Sized(l) && |l.cur| + HEADER <= BLOCK
  }

  function Min(a: int, b: int): int { if a <= b then a else b }

  function Zeros(n: nat): (r: Bytes)
    ensures |r| == n
  {
    seq(n, i => 0)
  }

  /** How much of p fits in the current block. */
  function Taken(l: Log, p: Bytes): (r: nat)
    requires Ready(l)
    ensures r <= |p| && |l.cur| + HEADER + r <= BLOCK
  {
    Min(BLOCK - |l.cur| - HEADER, |p|)
  }

  /** The test for the last fragment of a record, with the length in 32 bits. */
  predicate MarkedLast(l: Log, p: Bytes) { Int32(|p|) <= BLOCK - |l.cur| - HEADER }

  /** It is right below 2^31 bytes, and wrong for the last length from there on. */
  lemma Marking(l: Log, p: Bytes)
    requires Ready(l)
    ensures |p| < HALF ==> (MarkedLast(l, p) <==> Taken(l, p) == |p|)
    ensures Taken(l, p) == |p| ==> |p| < HALF
    ensures |p| - Taken(l, p) < HALF <= |p| ==> MarkedLast(l, p)
  {
  }

  /** The chunk of one fragment, before the end of the block is padded. */
  function Put(c: Codec, l: Log, first: bool, p: Bytes): (r: Log)
    requires Ready(l)
    ensures Sized(r) && |r.cur| <= BLOCK
  {
    var n := Taken(l, p);
    l.(cur := l.cur + Chunk(c, Kind(first, MarkedLast(l, p)), p[..n]))
  }

  /** A block without room for another header is filled with zeros and queued. */
  function Pad(l: Log): (r: Log)
    requires Sized(l) && |l.cur| <= BLOCK
    ensures Ready(r)
  {
    if BLOCK - |l.cur| < HEADER then Log(l.full + [l.cur + Zeros(BLOCK - |l.cur|)], []) else l
  }

  function Write(c: Codec, l: Log, first: bool, p: Bytes): (r: Log)
    requires Ready(l)
    ensures Ready(r)
    decreases |p|, |l.cur|
  {
    var n := Taken(l, p);
    var l' := Pad(Put(c, l, first, p));
    if n == |p| then l' else Write(c, l', false, p[n..])
  }

  /** What a reader takes for the record: its fragments up to the first marked as the last. */
  function Shown(c: Codec, l: Log, first: bool, p: Bytes): Bytes
    requires Ready(l)
    decreases |p|, |l.cur|
  {
    var n := Taken(l, p);
    p[..n] + if MarkedLast(l, p) || n == |p| then [] else Shown(c, Pad(Put(c, l, first, p)), false, p[n..])
  }

  function AllShown(c: Codec, l: Log, records: seq<Bytes>): (r: seq<Bytes>)
    requires Ready(l)
    ensures |r| == |records|
    decreases |records|
  {
    if records == [] then []
    else [Shown(c, l, true, records[0])] + AllShown(c, Write(c, l, true, records[0]), records[1..])
  }

  /** The whole record if it is shorter than 2^31 bytes, and less than it if not. */
  lemma {:induction false} ShownIs(c: Codec, l: Log, first: bool, p: Bytes)
    requires Ready(l)
    ensures Shown(c, l, first, p) <= p
    ensures Shown(c, l, first, p) == p <==> |p| < HALF
    decreases |p|, |l.cur|
  {
    Marking(l, p);
    var n := Taken(l, p);
    assert p == p[..n] + p[n..];
    if !MarkedLast(l, p) {
      ShownIs(c, Pad(Put(c, l, first, p)), false, p[n..]);
    }
  }

  predicate AllShort(records: seq<Bytes>) { forall i :: 0 <= i < |records| ==> |records[i]| < HALF }

  lemma {:induction false} AllShownAre(c: Codec, l: Log, records: seq<Bytes>)
    requires Ready(l)
    ensures AllShown(c, l, records) == records <==> AllShort(records)
    decreases |records|
  {
    if records != [] {
      ShownIs(c, l, true, records[0]);
      AllShownAre(c, Write(c, l, true, records[0]), records[1..]);
      assert records == [records[0]] + records[1..];
    }
  }

  function WriteAll(c: Codec, l: Log, records: seq<Bytes>): (r: Log)
    requires Ready(l)
    ensures Ready(r)
    decreases |records|
  {
    if records == [] then l else WriteAll(c, Write(c, l, true, records[0]), records[1..])
  }

  function Flat(blocks: seq<Bytes>): Bytes {
    if blocks == [] then [] else Flat(blocks[..|blocks| - 1]) + blocks[|blocks| - 1]
  }

  function Written(l: Log): Bytes { Flat(l.full) + l.cur }

  function Size(l: Log): nat { |l.full| * BLOCK + |l.cur| }

  lemma {:induction false} FlatSize(l: Log)
    requires Sized(l)
    ensures |Flat(l.full)| == |l.full| * BLOCK
    decreases |l.full|
  {
    if l.full != [] {
      FlatSize(Log(l.full[..|l.full| - 1], []));
    }
  }

  /** A record wastes nothing: one header for each block it is in, and behind each block it leaves less than a header. */
  lemma {:induction false} WriteIsTight(c: Codec, l: Log, first: bool, p: Bytes)
    requires Ready(l)
    ensures var l' := Write(c, l, first, p);
      var n := |l'.full| - |l.full|;
      var least := Size(l) + |p| + 11 * if l'.cur == [] then n else n + 1;
      0 <= n && least <= Size(l') <= least + 10 * n
    decreases |p|, |l.cur|
  {
    var n := Taken(l, p);
    var put := Put(c, l, first, p);
    assert |put.cur| == |l.cur| + HEADER + n && |Pad(put).full| <= |l.full| + 1;
    if n < |p| {
      WriteIsTight(c, Pad(put), false, p[n..]);
    }
  }

  // ----- One chunk -----

  /** Below m, b holds as much of s at off as its length allows. */
  predicate Holds(b: Bytes, off: nat, s: Bytes, m: int) {
    off <= |b| && forall i :: off <= i < |b| && i < off + |s| && i < m ==> b[i] == s[i - off]
  }

  lemma HeldSlice(b: Bytes, off: nat, s: Bytes, m: int, i: nat, j: nat)
    requires Holds(b, off, s, m) && i <= j <= |s| && off + j <= |b| && off + j <= m
    ensures b[off + i..off + j] == s[i..j]
  {
  }

  lemma ChunkParts(c: Codec, kind: Byte, p: Bytes)
    ensures var ch := Chunk(c, kind, p);
      && ch[0..4] == U32(Sum(c, Body(c, kind, p))) && ch[4..6] == U16(|p|) && ch[6] == kind
      && ch[7..11] == U32(c.log) && ch[11..] == p && ch[6..] == Body(c, kind, p)
  {
  }

  lemma HeaderRead(c: Codec, b: Bytes, off: nat, kind: Byte, p: Bytes, m: int)
    requires Fits(c) && |p| < 65536 && Holds(b, off, Chunk(c, kind, p), m) && off + HEADER <= m && off + HEADER <= |b|
    ensures Get32(b, off) == Sum(c, Body(c, kind, p)) && Get16(b, off + 4) == |p| && b[off + 6] == kind
    ensures Get32(b, off + 7) == c.log
  {
    var ch := Chunk(c, kind, p);
    ChunkParts(c, kind, p);
    HeldSlice(b, off, ch, m, 0, 4);
    HeldSlice(b, off, ch, m, 4, 6);
    HeldSlice(b, off, ch, m, 7, 11);
    Get32U32(b, off, Sum(c, Body(c, kind, p)));
    Get16U16(b, off + 4, |p|);
    Get32U32(b, off + 7, c.log);
  }

  /** A chunk the writer put there is read back. */
  lemma ScanChunk(c: Codec, b: Bytes, off: nat, kind: Byte, p: Bytes, m: int)
    requires Fits(c) && |p| < 65536 && 5 <= kind <= 8
    requires Holds(b, off, Chunk(c, kind, p), m) && off + HEADER + |p| <= |b| && off + HEADER + |p| <= m
    ensures Scan(c, b, off) == Good(kind - RECYCLABLE, off + HEADER, off + HEADER + |p|)
    ensures b[off + HEADER..off + HEADER + |p|] == p
  {
    var ch := Chunk(c, kind, p);
    HeaderRead(c, b, off, kind, p, m);
    ChunkParts(c, kind, p);
    HeldSlice(b, off, ch, m, 6, |ch|);
    HeldSlice(b, off, ch, m, 11, |ch|);
    assert b[off + 6..off + HEADER + |p|] == Body(c, kind, p);
  }

  /** What stands at off is no chunk, and if it looks like padding the block is short. */
  predicate Refused(c: Codec, b: Bytes, off: nat)
    requires off + LEGACY <= |b|
  {
    var r := Scan(c, b, off);
    !r.Good? && (r.Skip? ==> |b| < off + HEADER)
  }

  /** A header of which only the part below m was written. */
  lemma ScanTorn(c: Codec, b: Bytes, off: nat, m: int)
    requires off + LEGACY <= |b| && m < off + HEADER && (off + LEGACY <= m ==> 5 <= b[off + 6] <= 8)
    requires Scan(c, b, off).Good? ==> Scan(c, b, off).end <= m
    ensures Refused(c, b, off)
  {
  }

  /** A chunk whose end was not written, unless something else there passes for a chunk up to its end. */
  lemma ScanCut(c: Codec, b: Bytes, off: nat, kind: Byte, p: Bytes, m: int)
    requires Fits(c) && |p| < 65536 && 5 <= kind <= 8
    requires Holds(b, off, Chunk(c, kind, p), m) && off + LEGACY <= |b| && m <= |b| && m < off + HEADER + |p|
    requires Scan(c, b, off).Good? ==> Scan(c, b, off).end <= m
    ensures Refused(c, b, off)
  {
    if m < off + HEADER {
      ChunkParts(c, kind, p);
      ScanTorn(c, b, off, m);
    } else {
      HeaderRead(c, b, off, kind, p, m);
    }
  }

  /** Padding, if all of it that is looked at was written. */
  lemma ScanPadding(c: Codec, b: Bytes, off: nat, n: nat, m: int)
    requires Holds(b, off, Zeros(n), m) && off + LEGACY <= |b| <= off + n && n < HEADER
    requires Scan(c, b, off).Good? ==> Scan(c, b, off).end <= m
    ensures Refused(c, b, off) && (off + LEGACY <= m ==> Scan(c, b, off) == Skip)
  {
    if off + LEGACY <= m {
      assert b[off] == 0 && b[off + 1] == 0 && b[off + 2] == 0 && b[off + 3] == 0 && b[off + 4] == 0 && b[off + 5] == 0 && b[off + 6] == 0;
    }
  }

  lemma ScanTrailer(c: Codec, b: Bytes, off: nat, m: int)
    requires Fits(c) && Holds(b, off, Trailer(c), m) && off + LEGACY <= |b| && m <= |b|
    requires m < off + HEADER && Scan(c, b, off).Good? ==> Scan(c, b, off).end <= m
    ensures if off + HEADER <= m then Scan(c, b, off) == Foreign else Refused(c, b, off)
  {
    var t := Trailer(c);
    assert t[6] == FULL + RECYCLABLE;
    if off + HEADER <= m {
      assert b[off + 6] == t[6];
      HeldSlice(b, off, t, m, 7, 11);
      assert t[7..11] == U32((c.log + 1) % WORD);
      Get32U32(b, off + 7, (c.log + 1) % WORD);
    } else {
      ScanTorn(c, b, off, m);
    }
  }

  // ----- Where the reader and the writer stand -----

  /** Up to n bytes the file has those of the log; what follows is left over from before. */
  predicate Agree(file: Bytes, s: Bytes, n: nat) {
    n <= |file| && forall i :: 0 <= i < n && i < |s| ==> file[i] == s[i]
  }

  /**
    Nothing past n passes for a chunk of this log: neither at the start of a block, nor when the torn end
    of what was written is taken together with what follows.
   */
  ghost predicate Genuine(c: Codec, file: Bytes, n: nat) {
    forall k: nat, off: nat :: k * BLOCK < |file| && off + LEGACY <= |Block(file, k)| && (off == 0 || k * BLOCK + off <= n) ==>
      var r := Scan(c, Block(file, k), off); r.Good? ==> k * BLOCK + r.end <= n
  }

  /** It is needed only if the log was not written up to end. */
  ghost predicate Trusted(c: Codec, file: Bytes, n: nat, end: nat) { n < end ==> Genuine(c, file, n) }

  /** Where the file ends with what was written there is nothing else. */
  lemma TruncatedIsGenuine(c: Codec, file: Bytes)
    ensures Genuine(c, file, |file|)
  {
  }

  lemma BlockHolds(file: Bytes, n: nat, l: Log, s: Bytes)
    requires Sized(l) && |l.cur| + |s| <= BLOCK && Agree(file, Written(l.(cur := l.cur + s)), n)
    requires |l.full| * BLOCK < |file| && Size(l) <= |file|
    ensures Holds(Block(file, |l.full|), |l.cur|, s, n - |l.full| * BLOCK)
  {
    FlatSize(l);
    var b, base, w := Block(file, |l.full|), |l.full| * BLOCK, Written(l.(cur := l.cur + s));
    forall i | |l.cur| <= i < |b| && i < |l.cur| + |s| && i < n - base
      ensures b[i] == s[i - |l.cur|]
    {
      assert file[base + i] == w[base + i];
    }
  }

  /** From (k, off) the reader goes on as from the writer's position. */
  ghost predicate Reaches(c: Codec, file: Bytes, k: nat, off: nat, l: Log)
    requires off <= BLOCK && |l.cur| <= BLOCK
  {
    forall want :: Parse(c, file, k, off, want) == Parse(c, file, |l.full|, |l.cur|, want)
  }

  /** Nothing more is read from (k, off), and recovery goes on. */
  ghost predicate Ends(c: Codec, file: Bytes, k: nat, off: nat)
    requires off <= BLOCK
  {
    forall want :: Stops(Parse(c, file, k, off, want))
  }

  predicate Stops(r: Item) { r.Stop? && Accepted(r.err) }

  lemma RefusedEnds(c: Codec, file: Bytes, k: nat, off: nat)
    requires k * BLOCK < |file| && off + HEADER <= BLOCK && (off + LEGACY <= |Block(file, k)| ==> Refused(c, Block(file, k), off))
    ensures Ends(c, file, k, off)
  {
  }

  /** A block of which nothing was written. */
  lemma NextBlockEnds(c: Codec, file: Bytes, n: nat, k: nat)
    requires n <= k * BLOCK && Genuine(c, file, n)
    ensures Ends(c, file, k, 0)
  {
    if k * BLOCK < |file| && LEGACY <= |Block(file, k)| {
      var r := Scan(c, Block(file, k), 0);
      assert Refused(c, Block(file, k), 0);
      RefusedEnds(c, file, k, 0);
    }
  }

  lemma PutRead(c: Codec, file: Bytes, n: nat, l: Log, first: bool, p: Bytes, want: bool)
    requires Fits(c) && Ready(l) && Agree(file, Written(Put(c, l, first, p)), n)
    requires Size(Put(c, l, first, p)) <= n
    ensures var end := |l.cur| + HEADER + Taken(l, p);
      Parse(c, file, |l.full|, |l.cur|, want) ==
        if want && !first then Parse(c, file, |l.full|, end, want) else Item(p[..Taken(l, p)], MarkedLast(l, p), |l.full|, end)
  {
    hide Get32, Sum, Sized, Scan, Chunk;
    var q := p[..Taken(l, p)];
    var kind := Kind(first, MarkedLast(l, p));
    BlockHolds(file, n, l, Chunk(c, kind, q));
    ScanChunk(c, Block(file, |l.full|), |l.cur|, kind, q, n - |l.full| * BLOCK);
    ParseGood(c, file, |l.full|, |l.cur|, want, kind - RECYCLABLE, |l.cur| + HEADER, |l.cur| + HEADER + |q|);
  }

  lemma ParseGood(c: Codec, file: Bytes, k: nat, off: nat, want: bool, kind: Byte, begin: nat, end: nat)
    requires k * BLOCK < |file| && off + LEGACY <= |Block(file, k)| && Scan(c, Block(file, k), off) == Good(kind, begin, end)
    ensures Parse(c, file, k, off, want) ==
      if want && kind != FULL && kind != FIRST then Parse(c, file, k, end, want)
      else Item(Block(file, k)[begin..end], kind == FULL || kind == LAST, k, end)
  {
  }

  lemma PutCut(c: Codec, file: Bytes, n: nat, l: Log, first: bool, p: Bytes)
    requires Fits(c) && Ready(l) && Agree(file, Written(Put(c, l, first, p)), n) && Genuine(c, file, n)
    requires Size(l) <= n < Size(Put(c, l, first, p))
    ensures Ends(c, file, |l.full|, |l.cur|)
  {
    if |l.full| * BLOCK < |file| {
      var q := p[..Taken(l, p)];
      var kind := Kind(first, MarkedLast(l, p));
      var b := Block(file, |l.full|);
      BlockHolds(file, n, l, Chunk(c, kind, q));
      if |l.cur| + LEGACY <= |b| {
        ScanCut(c, b, |l.cur|, kind, q, n - |l.full| * BLOCK);
      }
      RefusedEnds(c, file, |l.full|, |l.cur|);
    }
  }

  lemma PadBytes(l: Log)
    requires Sized(l) && |l.cur| <= BLOCK && BLOCK - |l.cur| < HEADER
    ensures Written(Pad(l)) == Written(l.(cur := l.cur + Zeros(BLOCK - |l.cur|)))
  {
    var z := l.cur + Zeros(BLOCK - |l.cur|);
    assert (l.full + [z])[..|l.full|] == l.full;
  }

  lemma PadRead(c: Codec, file: Bytes, n: nat, l: Log)
    requires Sized(l) && 0 < |l.cur| <= BLOCK && Agree(file, Written(Pad(l)), n) && Size(Pad(l)) <= n
    ensures Reaches(c, file, |l.full|, |l.cur|, Pad(l))
  {
    var z := BLOCK - |l.cur|;
    if z < HEADER {
      PadBytes(l);
      BlockHolds(file, n, l, Zeros(z));
      if |l.cur| + LEGACY <= BLOCK {
        ScanPadding(c, Block(file, |l.full|), |l.cur|, z, n - |l.full| * BLOCK);
      }
    }
  }

  lemma PadCut(c: Codec, file: Bytes, n: nat, l: Log)
    requires Sized(l) && 0 < |l.cur| <= BLOCK && Agree(file, Written(Pad(l)), n) && Genuine(c, file, n)
    requires Size(l) <= n < Size(Pad(l))
    ensures Ends(c, file, |l.full|, |l.cur|)
  {
    var z := BLOCK - |l.cur|;
    var b := Block(file, |l.full|);
    PadBytes(l);
    BlockHolds(file, n, l, Zeros(z));
    NextBlockEnds(c, file, n, |l.full| + 1);
    if |l.cur| + LEGACY <= |b| {
      ScanPadding(c, b, |l.cur|, z, n - |l.full| * BLOCK);
    }
    PaddingEnds(c, file, |l.full|, |l.cur|);
  }

  lemma PaddingEnds(c: Codec, file: Bytes, k: nat, off: nat)
    requires k * BLOCK < |file| && off <= BLOCK < off + HEADER && Ends(c, file, k + 1, 0)
    requires off + LEGACY <= |Block(file, k)| ==> !Scan(c, Block(file, k), off).Good?
    ensures Ends(c, file, k, off)
  {
    forall want
      ensures Stops(Parse(c, file, k, off, want))
    {
      assert Stops(Parse(c, file, k + 1, 0, want));
    }
  }

  // ----- Whole records -----

  lemma PutGrows(c: Codec, l: Log, first: bool, p: Bytes)
    requires Ready(l)
    ensures Written(l) <= Written(Put(c, l, first, p)) && Size(l) < Size(Put(c, l, first, p))
  {
    var q := p[..Taken(l, p)];
    assert Written(Put(c, l, first, p)) == Written(l) + Chunk(c, Kind(first, MarkedLast(l, p)), q);
  }

  lemma PadGrows(l: Log)
    requires Sized(l) && |l.cur| <= BLOCK
    ensures Written(l) <= Written(Pad(l)) && Size(l) <= Size(Pad(l))
  {
    if BLOCK - |l.cur| < HEADER {
      PadBytes(l);
      assert Written(Pad(l)) == Written(l) + Zeros(BLOCK - |l.cur|);
    }
  }

  lemma {:induction false} WriteGrows(c: Codec, l: Log, first: bool, p: Bytes)
    requires Ready(l)
    ensures Written(l) <= Written(Write(c, l, first, p)) && Size(l) < Size(Write(c, l, first, p))
    ensures Written(Pad(Put(c, l, first, p))) <= Written(Write(c, l, first, p))
    ensures Size(Pad(Put(c, l, first, p))) <= Size(Write(c, l, first, p))
    decreases |p|, |l.cur|
  {
    PutGrows(c, l, first, p);
    PadGrows(Put(c, l, first, p));
    var n := Taken(l, p);
    if n != |p| {
      WriteGrows(c, Pad(Put(c, l, first, p)), false, p[n..]);
    }
  }

  lemma AgreeEarlier(file: Bytes, s: Bytes, t: Bytes, n: nat)
    requires Agree(file, t, n) && s <= t
    ensures Agree(file, s, n)
  {
  }

  /** How reading goes on to the next record from (k, off), when the writer came to l. */
  ghost predicate GoesOn(c: Codec, file: Bytes, n: nat, k: nat, off: nat, l: Log)
    requires off <= BLOCK && |l.cur| <= BLOCK
  {
    var r := Parse(c, file, k, off, true);
    if Size(l) <= n then r == Parse(c, file, |l.full|, |l.cur|, true) else Stops(r)
  }

  /** What reading from the writer's position finds of a record or the rest of one. */
  ghost predicate ReadsBack(c: Codec, file: Bytes, n: nat, r: Record, p: Bytes, l: Log)
    requires |l.cur| <= BLOCK && (r.Record? ==> r.off <= BLOCK)
  {
    if r.Record? then r.payload == p && GoesOn(c, file, n, r.k, r.off, l)
    else n < Size(l) && Accepted(r.err)
  }

  /** What Next and Read, or Read alone, find at (k, off). */
  function ReadFrom(c: Codec, file: Bytes, k: nat, off: nat, first: bool): (r: Record)
    requires off <= BLOCK
    ensures r.Record? ==> r.off <= BLOCK
  {
    if first then ReadOne(c, file, k, off) else Rest(c, file, k, off, false)
  }

  lemma ReadStops(c: Codec, file: Bytes, k: nat, off: nat, first: bool)
    requires off <= BLOCK && Ends(c, file, k, off)
    ensures var r := ReadFrom(c, file, k, off, first); r.Fail? && Accepted(r.err)
  {
    assert Stops(Parse(c, file, k, off, first));
  }

  lemma ReadGoesOn(c: Codec, file: Bytes, k: nat, off: nat, first: bool)
    requires off <= BLOCK && Parse(c, file, k, off, first).Item?
    ensures var i := Parse(c, file, k, off, first);
      ReadFrom(c, file, k, off, first) == Prepend(i.payload, Rest(c, file, i.k, i.off, i.last))
  {
  }

  lemma AgreesInParts(c: Codec, file: Bytes, n: nat, l: Log, first: bool, p: Bytes)
    requires Ready(l) && Agree(file, Written(Write(c, l, first, p)), n)
    ensures var put := Put(c, l, first, p); Agree(file, Written(put), n) && Agree(file, Written(Pad(put)), n)
    ensures Size(l) < Size(Put(c, l, first, p)) <= Size(Pad(Put(c, l, first, p))) <= Size(Write(c, l, first, p))
  {
    var put := Put(c, l, first, p);
    WriteGrows(c, l, first, p);
    PutGrows(c, l, first, p);
    PadGrows(put);
    AgreeEarlier(file, Written(Pad(put)), Written(Write(c, l, first, p)), n);
    AgreeEarlier(file, Written(put), Written(Pad(put)), n);
  }

  /** Fragments behind one that was marked last too early are passed over. */
  lemma {:induction false} SkipRead(c: Codec, file: Bytes, n: nat, l: Log, p: Bytes)
    requires Fits(c) && Ready(l) && Agree(file, Written(Write(c, l, false, p)), n) && Size(l) <= n
    requires Trusted(c, file, n, Size(Write(c, l, false, p)))
    ensures GoesOn(c, file, n, |l.full|, |l.cur|, Write(c, l, false, p))
    decreases |p|, |l.cur|
  {
    hide Sum, Sized, Scan, Parse, Chunk;
    var put, taken := Put(c, l, false, p), Taken(l, p);
    AgreesInParts(c, file, n, l, false, p);
    if n < Size(put) {
      PutCut(c, file, n, l, false, p);
    } else {
      PutRead(c, file, n, l, false, p, true);
      if n >= Size(Pad(put)) && taken != |p| {
        SkipRead(c, file, n, Pad(put), p[taken..]);
      }
      AfterPut(c, file, n, l, p);
    }
  }

  lemma AfterPut(c: Codec, file: Bytes, n: nat, l: Log, p: Bytes)
    requires Fits(c) && Ready(l) && Agree(file, Written(Pad(Put(c, l, false, p))), n) && Size(Put(c, l, false, p)) <= n
    requires Trusted(c, file, n, Size(Write(c, l, false, p)))
    requires var put, taken := Put(c, l, false, p), Taken(l, p);
      Size(Pad(put)) <= n && taken != |p| ==> GoesOn(c, file, n, |Pad(put).full|, |Pad(put).cur|, Write(c, Pad(put), false, p[taken..]))
    ensures var put := Put(c, l, false, p); GoesOn(c, file, n, |put.full|, |put.cur|, Write(c, l, false, p))
  {
    var put := Put(c, l, false, p);
    WriteGrows(c, l, false, p);
    if n < Size(Pad(put)) {
      PadCut(c, file, n, put);
      assert Stops(Parse(c, file, |put.full|, |put.cur|, true));
    } else {
      PadRead(c, file, n, put);
      assert Parse(c, file, |put.full|, |put.cur|, true) == Parse(c, file, |Pad(put).full|, |Pad(put).cur|, true);
    }
  }

  /** A record, or the rest of one, is read up to the first fragment marked last, and what is left of it passed over. */
  lemma {:induction false} RecordRead(c: Codec, file: Bytes, n: nat, l: Log, first: bool, p: Bytes)
    requires Fits(c) && Ready(l) && Agree(file, Written(Write(c, l, first, p)), n) && Size(l) <= n
    requires Trusted(c, file, n, Size(Write(c, l, first, p)))
    ensures ReadsBack(c, file, n, ReadFrom(c, file, |l.full|, |l.cur|, first), Shown(c, l, first, p), Write(c, l, first, p))
    decreases |p|, |l.cur|
  {
    var put := Put(c, l, first, p);
    AgreesInParts(c, file, n, l, first, p);
    if n < Size(put) {
      PutCut(c, file, n, l, first, p);
      ReadStops(c, file, |l.full|, |l.cur|, first);
    } else {
      PutRead(c, file, n, l, first, p, first);
      TailRead(c, file, n, l, first, p);
      HeadAndTail(c, file, n, l, first, p);
    }
  }

  lemma HeadAndTail(c: Codec, file: Bytes, n: nat, l: Log, first: bool, p: Bytes)
    requires Ready(l)
    requires var put := Put(c, l, first, p);
      && Parse(c, file, |l.full|, |l.cur|, first) == Item(p[..Taken(l, p)], MarkedLast(l, p), |put.full|, |put.cur|)
      && ReadsBack(c, file, n, Rest(c, file, |put.full|, |put.cur|, MarkedLast(l, p)), ShownRest(c, l, first, p), Write(c, l, first, p))
    ensures ReadsBack(c, file, n, ReadFrom(c, file, |l.full|, |l.cur|, first), Shown(c, l, first, p), Write(c, l, first, p))
  {
    var put := Put(c, l, first, p);
    ReadGoesOn(c, file, |l.full|, |l.cur|, first);
    PrependReads(c, file, n, Rest(c, file, |put.full|, |put.cur|, MarkedLast(l, p)), p[..Taken(l, p)], ShownRest(c, l, first, p), Write(c, l, first, p));
  }

  /** What the fragments behind the first add to the record as it is read. */
  function ShownRest(c: Codec, l: Log, first: bool, p: Bytes): Bytes
    requires Ready(l)
  {
    if MarkedLast(l, p) || Taken(l, p) == |p| then [] else Shown(c, Pad(Put(c, l, first, p)), false, p[Taken(l, p)..])
  }

  lemma PrependReads(c: Codec, file: Bytes, n: nat, r: Record, head: Bytes, tail: Bytes, l: Log)
    requires |l.cur| <= BLOCK && (r.Record? ==> r.off <= BLOCK) && ReadsBack(c, file, n, r, tail, l)
    ensures ReadsBack(c, file, n, Prepend(head, r), head + tail, l)
  {
  }

  /** What follows a fragment that has been read. */
  lemma {:induction false} TailRead(c: Codec, file: Bytes, n: nat, l: Log, first: bool, p: Bytes)
    requires Fits(c) && Ready(l) && Agree(file, Written(Write(c, l, first, p)), n) && Size(Put(c, l, first, p)) <= n
    requires Agree(file, Written(Pad(Put(c, l, first, p))), n) && Trusted(c, file, n, Size(Write(c, l, first, p)))
    ensures var put := Put(c, l, first, p);
      ReadsBack(c, file, n, Rest(c, file, |put.full|, |put.cur|, MarkedLast(l, p)), ShownRest(c, l, first, p), Write(c, l, first, p))
    decreases |p|, |l.cur|, 0
  {
    var put, taken := Put(c, l, first, p), Taken(l, p);
    WriteGrows(c, l, first, p);
    Marking(l, p);
    if n < Size(Pad(put)) {
      PadCut(c, file, n, put);
      assert Stops(Parse(c, file, |put.full|, |put.cur|, true)) && Stops(Parse(c, file, |put.full|, |put.cur|, false));
    } else {
      PadRead(c, file, n, put);
      if taken != |p| {
        if MarkedLast(l, p) {
          SkipRead(c, file, n, Pad(put), p[taken..]);
        } else {
          RecordRead(c, file, n, Pad(put), false, p[taken..]);
          RestReaches(c, file, |put.full|, |put.cur|, Pad(put));
        }
      }
    }
  }

  lemma RestReaches(c: Codec, file: Bytes, k: nat, off: nat, l: Log)
    requires off <= BLOCK && |l.cur| <= BLOCK && Reaches(c, file, k, off, l)
    ensures Rest(c, file, k, off, false) == Rest(c, file, |l.full|, |l.cur|, false)
  {
    assert Parse(c, file, k, off, false) == Parse(c, file, |l.full|, |l.cur|, false);
  }

  // ----- Whole files -----

  lemma {:induction false} WriteAllGrows(c: Codec, l: Log, records: seq<Bytes>)
    requires Ready(l)
    ensures Written(l) <= Written(WriteAll(c, l, records)) && Size(l) <= Size(WriteAll(c, l, records))
    decreases |records|
  {
    if records != [] {
      WriteGrows(c, l, true, records[0]);
      WriteAllGrows(c, Write(c, l, true, records[0]), records[1..]);
    }
  }

  /** The whole stream with its trailer, as bytes. */
  function Closed(c: Codec, l: Log): Bytes { Written(l) + Trailer(c) }

  lemma TrailerRead(c: Codec, file: Bytes, n: nat, l: Log)
    requires Fits(c) && Ready(l) && Agree(file, Closed(c, l), n) && Size(l) <= n && Trusted(c, file, n, Size(l) + HEADER)
    ensures var r := Parse(c, file, |l.full|, |l.cur|, true); Stops(r) && (Size(l) + HEADER <= n ==> r.err == EOF)
  {
    if |l.full| * BLOCK < |file| {
      var b := Block(file, |l.full|);
      assert Closed(c, l) == Written(l.(cur := l.cur + Trailer(c)));
      BlockHolds(file, n, l, Trailer(c));
      if n < Size(l) + HEADER {
        if |l.cur| + LEGACY <= |b| {
          ScanTrailer(c, b, |l.cur|, n - |l.full| * BLOCK);
        }
        RefusedEnds(c, file, |l.full|, |l.cur|);
      } else {
        ScanTrailer(c, b, |l.cur|, |l.cur| + HEADER);
      }
    }
  }

  /** The first j records are written within n bytes, with the padding behind them. */
  ghost predicate Complete(c: Codec, l: Log, records: seq<Bytes>, j: nat, n: nat)
    requires Ready(l) && j <= |records|
  {
    Size(WriteAll(c, l, records[..j])) <= n
  }

  /**
    Reading what was written, as far as the file has it: the first m records, at least all those
    written completely, and the end of file when the trailer is there too.
   */
  ghost predicate FirstRead(c: Codec, file: Bytes, n: nat, l: Log, records: seq<Bytes>, m: nat)
    requires Ready(l) && m <= |records|
  {
    var r := ReadAll(c, file, |l.full|, |l.cur|);
    && r.0 == AllShown(c, l, records)[..m] && Accepted(r.1)
    && (forall j :: 0 <= j <= |records| && Complete(c, l, records, j, n) ==> j <= m)
    && (Size(WriteAll(c, l, records)) + HEADER <= n ==> r.1 == EOF)
  }

  lemma {:induction false} AllRead(c: Codec, file: Bytes, n: nat, l: Log, records: seq<Bytes>) returns (m: nat)
    requires Fits(c) && Ready(l) && Size(l) <= n
    requires Agree(file, Closed(c, WriteAll(c, l, records)), n) && Trusted(c, file, n, Size(WriteAll(c, l, records)) + HEADER)
    ensures m <= |records| && FirstRead(c, file, n, l, records, m)
    decreases |records|
  {
    if records == [] {
      TrailerRead(c, file, n, l);
      m := 0;
    } else {
      var l' := Write(c, l, true, records[0]);
      WriteGrows(c, l, true, records[0]);
      WriteAllGrows(c, l', records[1..]);
      AgreeEarlier(file, Written(l'), Closed(c, WriteAll(c, l, records)), n);
      RecordRead(c, file, n, l, true, records[0]);
      if Size(l') <= n {
        m := AllRead(c, file, n, l', records[1..]);
        RecordThenRest(c, file, n, l, records, m);
        m := m + 1;
      } else {
        m := if ReadOne(c, file, |l.full|, |l.cur|).Record? then 1 else 0;
        RecordCut(c, file, n, l, records, m);
      }
    }
  }

  lemma RecordThenRest(c: Codec, file: Bytes, n: nat, l: Log, records: seq<Bytes>, m: nat)
    requires Ready(l) && records != [] && m < |records|
    requires var l' := Write(c, l, true, records[0]);
      && Size(l') <= n && FirstRead(c, file, n, l', records[1..], m)
      && ReadsBack(c, file, n, ReadOne(c, file, |l.full|, |l.cur|), Shown(c, l, true, records[0]), l')
    ensures FirstRead(c, file, n, l, records, m + 1)
  {
    var r := ReadOne(c, file, |l.full|, |l.cur|);
    var l' := Write(c, l, true, records[0]);
    CompleteRest(c, l, records, n);
    ReadAllGoesOn(c, file, n, |l.full|, |l.cur|, l');
    var shown, rest := AllShown(c, l, records), AllShown(c, l', records[1..]);
    assert shown[..m + 1] == [Shown(c, l, true, records[0])] + rest[..m];
  }

  lemma ReadAllGoesOn(c: Codec, file: Bytes, n: nat, k: nat, off: nat, l: Log)
    requires off <= BLOCK && |l.cur| <= BLOCK && Size(l) <= n && ReadOne(c, file, k, off).Record?
    requires var r := ReadOne(c, file, k, off); GoesOn(c, file, n, r.k, r.off, l)
    ensures var rest := ReadAll(c, file, |l.full|, |l.cur|);
      ReadAll(c, file, k, off) == ([ReadOne(c, file, k, off).payload] + rest.0, rest.1)
  {
    var r := ReadOne(c, file, k, off);
    assert Parse(c, file, r.k, r.off, true) == Parse(c, file, |l.full|, |l.cur|, true);
  }

  lemma RecordCut(c: Codec, file: Bytes, n: nat, l: Log, records: seq<Bytes>, m: nat)
    requires Ready(l) && records != [] && m <= 1 && (m == 1 <==> ReadOne(c, file, |l.full|, |l.cur|).Record?)
    requires var l' := Write(c, l, true, records[0]);
      n < Size(l') && ReadsBack(c, file, n, ReadOne(c, file, |l.full|, |l.cur|), Shown(c, l, true, records[0]), l')
    ensures FirstRead(c, file, n, l, records, m)
  {
    var r := ReadOne(c, file, |l.full|, |l.cur|);
    CompleteRest(c, l, records, n);
    if r.Record? {
      assert Parse(c, file, r.k, r.off, true).Stop?;
      assert AllShown(c, l, records)[..1] == [Shown(c, l, true, records[0])];
    }
  }

  lemma CompleteRest(c: Codec, l: Log, records: seq<Bytes>, n: nat)
    requires Ready(l) && records != []
    ensures var l' := Write(c, l, true, records[0]);
      && (forall j :: 0 < j <= |records| && Complete(c, l, records, j, n) ==> Complete(c, l', records[1..], j - 1, n) && Size(l') <= n)
      && Size(l') <= Size(WriteAll(c, l, records))
  {
    var l' := Write(c, l, true, records[0]);
    WriteAllGrows(c, l', records[1..]);
    forall j | 0 < j <= |records| && Complete(c, l, records, j, n)
      ensures Size(l') <= n && Complete(c, l', records[1..], j - 1, n)
    {
      assert records[..j][1..] == records[1..][..j - 1];
      WriteAllGrows(c, l', records[1..][..j - 1]);
    }
  }

  const EMPTY := Log([], [])

  /**
    What Close leaves, whatever an earlier use of the file left behind it: each record is read back up to
    its first fragment marked last, then the file ends. That is what was written if and only if every
    record is shorter than 2^31 bytes.
   */
  lemma RoundTrip(c: Codec, records: seq<Bytes>, garbage: Bytes)
    requires Fits(c)
    ensures var r := ReadAll(c, Closed(c, WriteAll(c, EMPTY, records)) + garbage, 0, 0);
      r == (AllShown(c, EMPTY, records), EOF) && (r == (records, EOF) <==> AllShort(records))
  {
    var l := WriteAll(c, EMPTY, records);
    var file := Closed(c, l) + garbage;
    var n := |Closed(c, l)|;
    FlatSize(l);
    var m := AllRead(c, file, n, EMPTY, records);
    assert records[..|records|] == records;
    assert Complete(c, EMPTY, records, |records|, n) && FirstRead(c, file, n, EMPTY, records, m);
    assert AllShown(c, EMPTY, records)[..m] == AllShown(c, EMPTY, records);
    AllShownAre(c, EMPTY, records);
  }

  /** Where it fails: of a record of 2^31 bytes only the first fragment is read back. */
  lemma HugeIsCut(c: Codec, p: Bytes, garbage: Bytes)
    requires Fits(c) && |p| == HALF
    ensures ReadAll(c, Closed(c, WriteAll(c, EMPTY, [p])) + garbage, 0, 0) == ([p[..BLOCK - HEADER]], EOF)
  {
    RoundTrip(c, [p], garbage);
    FirstMarked(c, EMPTY, p);
  }

  lemma FirstMarked(c: Codec, l: Log, p: Bytes)
    requires Ready(l) && MarkedLast(l, p)
    ensures AllShown(c, l, [p]) == [p[..Taken(l, p)]]
  {
    var n := Taken(l, p);
    assert Shown(c, l, true, p) == p[..n] + [] == p[..n];
    var none: seq<Bytes> := [];
    assert [p][1..] == none && AllShown(c, Write(c, l, true, p), none) == [];
  }

  /**
    A crash that leaves any first n bytes, with older bytes behind them if the file had been used before:
    only records from the end are lost, none that was written in full, and reading stops in a way recovery
    accepts, unless older bytes pass for a chunk of this log.
   */
  lemma RecycledCrash(c: Codec, records: seq<Bytes>, n: nat, older: Bytes) returns (m: nat)
    requires Fits(c) && n <= |Closed(c, WriteAll(c, EMPTY, records))|
    requires Genuine(c, Closed(c, WriteAll(c, EMPTY, records))[..n] + older, n)
    ensures m <= |records|
    ensures var r := ReadAll(c, Closed(c, WriteAll(c, EMPTY, records))[..n] + older, 0, 0);
      r.0 == AllShown(c, EMPTY, records)[..m] && (AllShort(records) ==> r.0 == records[..m]) && Accepted(r.1)
    ensures forall j :: 0 <= j <= |records| && |Written(WriteAll(c, EMPTY, records[..j]))| <= n ==> j <= m
  {
    var file := Closed(c, WriteAll(c, EMPTY, records))[..n] + older;
    m := AllRead(c, file, n, EMPTY, records);
    assert FirstRead(c, file, n, EMPTY, records, m);
    AllShownAre(c, EMPTY, records);
    forall j | 0 <= j <= |records| && |Written(WriteAll(c, EMPTY, records[..j]))| <= n
      ensures j <= m
    {
      FlatSize(WriteAll(c, EMPTY, records[..j]));
      assert Complete(c, EMPTY, records, j, n);
    }
  }

  /** The same for a file that ends where the crash came. */
  lemma CrashPrefix(c: Codec, records: seq<Bytes>, n: nat) returns (m: nat)
    requires Fits(c) && n <= |Closed(c, WriteAll(c, EMPTY, records))|
    ensures m <= |records|
    ensures var r := ReadAll(c, Closed(c, WriteAll(c, EMPTY, records))[..n], 0, 0);
      r.0 == AllShown(c, EMPTY, records)[..m] && (AllShort(records) ==> r.0 == records[..m]) && Accepted(r.1)
    ensures forall j :: 0 <= j <= |records| && |Written(WriteAll(c, EMPTY, records[..j]))| <= n ==> j <= m
  {
    var file := Closed(c, WriteAll(c, EMPTY, records))[..n];
    assert file + [] == file;
    TruncatedIsGenuine(c, file);
    m := RecycledCrash(c, records, n, []);
  }
}
