/**
  Batches (batch.go) and their application to the memtable (mem_table.go): operations packed with
  varint lengths behind a twelve-byte header, read back one by one and numbered in order.
 */
module BatchCodec {
  import opened Common
  import opened LogFormat

  const BATCH_HEADER := 12
  const KIND_MAX := 18

  /** Other: a kind that no batch method writes. */
  datatype Op = Set(key: Bytes, value: Bytes) | Delete(key: Bytes) | PrefixDelete(key: Bytes) | LogData(key: Bytes) | Other(kind: Byte, key: Bytes)

  function KindOf(op: Op): Byte {
    match op
    case Delete(_) => 0
    case Set(_, _) => 1
    case LogData(_) => 3
    case PrefixDelete(_) => 4
    case Other(kind, _) => kind
  }

  /** What the batch methods write. */
  predicate Made(ops: seq<Op>) { forall i :: 0 <= i < |ops| ==> !ops[i].Other? }

  // ----- Lengths -----

  function Varint(x: nat): (r: Bytes)
    ensures 0 < |r|
  {
    if x < 128 then [x] else [x % 128 + 128] + Varint(x / 128)
  }

  /** The loop that writes a length. */
  method PutVarint(x: nat) returns (r: Bytes)
    ensures r == Varint(x)
  {
    r := [];
    var y := x;
    while y >= 128
      invariant r + Varint(y) == Varint(x)
    {
      assert r + ([y % 128 + 128] + Varint(y / 128)) == (r + [y % 128 + 128]) + Varint(y / 128);
      r := r + [y % 128 + 128];
      y := y / 128;
    }
    r := r + [y];
  }

  /** A length and how many bytes it took; None where the code would read past the end. */
  function Length(d: Bytes): (r: Option<(nat, nat)>)
    ensures r.Some? ==> 0 < r.value.1 <= 5 && r.value.1 <= |d| && r.value.0 < WORD
  {
    if |d| < 1 then None
    else if d[0] < 128 then Some((d[0], 1))
    else if |d| < 2 then None
    else if d[1] < 128 then Some((d[1] as int * 128 + (d[0] - 128), 2))
    else if |d| < 3 then None
    else if d[2] < 128 then Some((d[2] as int * 16384 + (d[1] - 128) as int * 128 + (d[0] - 128), 3))
    else if |d| < 4 then None
    else if d[3] < 128 then Some((d[3] as int * 2097152 + (d[2] - 128) as int * 16384 + (d[1] - 128) as int * 128 + (d[0] - 128), 4))
    else if |d| < 5 then None
    else Some(((d[4] as int * 268435456 + (d[3] - 128) as int * 2097152 + (d[2] - 128) as int * 16384 + (d[1] - 128) as int * 128 + (d[0] - 128)) % WORD, 5))
  }

  lemma LengthOne(x: nat, tail: Bytes)
    requires x < 128
    ensures Length(Varint(x) + tail) == Some((x, |Varint(x)|))
  {
  }

  lemma Varint2(x: nat)
    requires 128 <= x < 16384
    ensures Varint(x) == [x % 128 + 128, x / 128]
  {
  }

  lemma Varint3(x: nat)
    requires 16384 <= x < 2097152
    ensures Varint(x) == [x % 128 + 128, x / 128 % 128 + 128, x / 128 / 128]
  {
    Varint2(x / 128);
  }

  lemma Varint4(x: nat)
    requires 2097152 <= x < 268435456
    ensures Varint(x) == [x % 128 + 128, x / 128 % 128 + 128, x / 128 / 128 % 128 + 128, x / 128 / 128 / 128]
  {
    Varint3(x / 128);
  }

  lemma Varint5(x: nat)
    requires 268435456 <= x < WORD
    ensures Varint(x) == [x % 128 + 128, x / 128 % 128 + 128, x / 128 / 128 % 128 + 128, x / 128 / 128 / 128 % 128 + 128, x / 128 / 128 / 128 / 128]
  {
    Varint4(x / 128);
  }

  lemma LengthRead(x: nat, tail: Bytes)
    requires x < WORD
    ensures Length(Varint(x) + tail) == Some((x, |Varint(x)|))
  {
    hide Varint;
    if x < 128 {
      LengthOne(x, tail);
    } else if x < 16384 {
      Varint2(x);
    } else if x < 2097152 {
      Varint3(x);
    } else if x < 268435456 {
      Varint4(x);
    } else {
      Varint5(x);
    }
  }

  /** A varint's digits to the base 128, the least first. */
  function Digits(b: Bytes): nat {
    if b == [] then 0 else b[0] % 128 + 128 * Digits(b[1..])
  }

  /** Whatever the bytes: up to the first without the high bit, and no further than five, the last of them not masked. */
  lemma LengthIs(d: Bytes, n: nat)
    requires n <= |d| && forall i :: 0 <= i < n ==> d[i] >= 128
    ensures n == |d| < 5 ==> Length(d) == None
    ensures n < |d| && n < 4 && d[n] < 128 ==> Length(d) == Some((Digits(d[..n + 1]), n + 1))
    ensures n < |d| && n == 4 ==> Length(d).Some? && Length(d).value.1 == 5 && Length(d).value.0 == (Digits(d[..4]) + 268435456 * d[4] as int) % WORD
  {
    hide Digits, Length;
    if n == |d| < 5 {
      LengthEnds(d);
    } else if n < 4 && d[n] < 128 {
      LengthShort(d, n);
    } else if n == 4 {
      LengthFive(d);
    }
  }

  lemma LengthEnds(d: Bytes)
    requires |d| < 5 && forall i :: 0 <= i < |d| ==> d[i] >= 128
    ensures Length(d) == None
  {
  }

  lemma LengthShort(d: Bytes, n: nat)
    requires n < 4 && n < |d| && d[n] < 128 && forall i :: 0 <= i < n ==> d[i] >= 128
    ensures Length(d) == Some((Digits(d[..n + 1]), n + 1))
  {
    hide Digits;
    var b := d[..n + 1];
    assert forall i :: 0 <= i < |b| ==> b[i] == d[i] && b[i] % 128 == if i < n then d[i] - 128 else d[i];
    FourDigits(b);
  }

  lemma LengthFive(d: Bytes)
    requires |d| >= 5 && forall i :: 0 <= i < 4 ==> d[i] >= 128
    ensures Length(d).Some? && Length(d).value.1 == 5 && Length(d).value.0 == (Digits(d[..4]) + 268435456 * d[4] as int) % WORD
  {
    hide Digits;
    FourDigits(d[..4]);
    assert Digits(d[..4]) == (d[0] - 128) as int + 128 * (d[1] - 128) as int + 16384 * (d[2] - 128) as int + 2097152 * (d[3] - 128) as int;
  }

  lemma FourDigits(b: Bytes)
    requires 1 <= |b| <= 4
    ensures Digits(b) == b[0] % 128 + (if |b| > 1 then 128 * (b[1] % 128) as int else 0)
      + (if |b| > 2 then 16384 * (b[2] % 128) as int else 0) + (if |b| > 3 then 2097152 * (b[3] % 128) as int else 0)
  {
    assert Digits(b) == b[0] % 128 + 128 * Digits(b[1..]);
    if |b| > 1 {
      assert Digits(b[1..]) == b[1] % 128 + 128 * Digits(b[1..][1..]) && b[1..][1..] == b[2..];
    }
    if |b| > 2 {
      assert Digits(b[2..]) == b[2] % 128 + 128 * Digits(b[2..][1..]) && b[2..][1..] == b[3..];
    }
    if |b| > 3 {
      assert b[3..] == [b[3]] && Digits(b[3..]) == b[3] % 128 + 128 * Digits(b[3..][1..]) && b[3..][1..] == [];
    }
  }

  // ----- Operations -----

  /** A string behind its length in 32 bits. */
  function Strung(s: Bytes): (r: Bytes)
    ensures |s| < |r|
  {
    Varint(|s| % WORD) + s
  }

  function ValueOf(op: Op): Bytes { if op.Set? then Strung(op.value) else [] }

  function Encode(op: Op): (r: Bytes)
    ensures |op.key| + |ValueOf(op)| < |r|
  {
    [KindOf(op)] + Strung(op.key) + ValueOf(op)
  }

  function EncodeAll(ops: seq<Op>): Bytes {
    if ops == [] then [] else Encode(ops[0]) + EncodeAll(ops[1..])
  }

  /** Seven bits a byte, the least first; all but the last byte have the high bit, and there is no needless byte. */
  lemma {:induction false} VarintIs(x: nat)
    ensures var b := Varint(x);
      Digits(b) == x && (forall i :: 0 <= i < |b| ==> (b[i] >= 128 <==> i < |b| - 1)) && (|b| > 1 ==> b[|b| - 1] != 0)
  {
    if x < 128 {
      assert Varint(x) == [x] && [x][1..] == [];
    } else {
      VarintIs(x / 128);
      assert Varint(x)[1..] == Varint(x / 128);
    }
  }

  /** The bytes of an operation: its kind, the length of its key and the key, and for a set the same of its value. */
  lemma RecordLayout(op: Op)
    ensures var r, n := Encode(op), |Varint(|op.key| % WORD)|;
      && r[0] == (match op case Delete(_) => 0 case Set(_, _) => 1 case LogData(_) => 3 case PrefixDelete(_) => 4 case Other(kind, _) => kind)
      && 1 + n + |op.key| <= |r| && r[1..1 + n] == Varint(|op.key| % WORD) && r[1 + n..1 + n + |op.key|] == op.key
      && r[1 + n + |op.key|..] == if op.Set? then Varint(|op.value| % WORD) + op.value else []
  {
    hide Varint;
  }

  /** Something decoded, the end of what can be, or a length that goes past the end of the bytes, where the code panics. */
  datatype Got<T> = Got(value: T) | End | Panics

  /** batchDecodeStr: the string and what follows it. The length is compared with what is left in 32 bits. */
  function Str(d: Bytes): (r: Got<(Bytes, Bytes)>)
    ensures r.Got? ==> |r.value.1| < |d|
  {
    match Length(d)
    case None => Panics
    case Some(l) => if l.0 > (|d| - l.1) % WORD then End else Got((d[l.1..l.1 + l.0], d[l.1 + l.0..]))
  }

  /** The length fits 32 bits, and so does what is left behind it, or at least it wraps to no less. */
  predicate Plain(s: nat, tail: nat) { s < WORD && s <= (s + tail) % WORD }

  lemma StrRead(s: Bytes, tail: Bytes)
    ensures var r := Str(Strung(s) + tail);
      if Plain(|s|, |tail|) then r == Got((s, tail)) else r == End || (r.Got? && r.value.0 != s)
  {
    var x := |s| % WORD;
    var d := Strung(s) + tail;
    assert d == Varint(x) + (s + tail);
    LengthRead(x, s + tail);
    var n := |Varint(x)|;
    assert d[n..n + x] == s[..x] && (x == |s| ==> d[n + x..] == tail);
  }

  /** BatchReader.Next */
  function Next(d: Bytes): (r: Got<(Op, Bytes)>)
    ensures r.Got? ==> |r.value.1| < |d|
  {
    if d == [] || d[0] > KIND_MAX then End
    else
      match Str(d[1..])
      case End => End
      case Panics => Panics
      case Got(k) =>
        if d[0] == 1 then
          match Str(k.1)
          case End => End
          case Panics => Panics
          case Got(v) => Got((Set(k.0, v.0), v.1))
        else if d[0] == 0 then Got((Delete(k.0), k.1))
        else if d[0] == 4 then Got((PrefixDelete(k.0), k.1))
        else if d[0] == 3 then Got((LogData(k.0), k.1))
        else Got((Other(d[0], k.0), k.1))
  }

  /** Neither length of an operation is misread, with so many bytes behind it. */
  predicate Clear(op: Op, tail: nat) {
    Plain(|op.key|, |ValueOf(op)| + tail) && (op.Set? ==> Plain(|op.value|, tail))
  }

  /** An operation is read back from the front of what was written if and only if it is clear. */
  lemma NextRead(op: Op, tail: Bytes)
    requires !op.Other?
    ensures var r := Next(Encode(op) + tail);
      if Clear(op, |tail|) then r == Got((op, tail)) else r == End || r == Panics || (r.Got? && r.value.0 != op)
  {
    hide Varint, Length, Str, Strung;
    var d := Encode(op) + tail;
    assert d[1..] == Strung(op.key) + (ValueOf(op) + tail);
    StrRead(op.key, ValueOf(op) + tail);
    if op.Set? {
      StrRead(op.value, tail);
    } else {
      assert ValueOf(op) + tail == tail;
    }
  }

  function ReadAll(d: Bytes): seq<Op>
    decreases |d|
  {
    var n := Next(d);
    if n.Got? then [n.value.0] + ReadAll(n.value.1) else []
  }

  /** Reading ends in a panic. */
  predicate Breaks(d: Bytes)
    decreases |d|
  {
    var n := Next(d);
    if n.Got? then Breaks(n.value.1) else n.Panics?
  }

  predicate AllClear(ops: seq<Op>) {
    ops == [] || (Clear(ops[0], |EncodeAll(ops[1..])|) && AllClear(ops[1..]))
  }

  lemma {:induction false} AllRead(ops: seq<Op>)
    requires Made(ops)
    ensures ReadAll(EncodeAll(ops)) == ops <==> AllClear(ops)
    ensures AllClear(ops) ==> !Breaks(EncodeAll(ops))
    decreases |ops|
  {
    hide Encode, Str, Length;
    if ops != [] {
      NextRead(ops[0], EncodeAll(ops[1..]));
      AllRead(ops[1..]);
      assert ops == [ops[0]] + ops[1..];
    }
  }

  /** A batch below 4 GiB is clear. */
  lemma {:induction false} SmallIsClear(ops: seq<Op>)
    requires |EncodeAll(ops)| < WORD
    ensures AllClear(ops)
    decreases |ops|
  {
    hide Strung, Encode;
    if ops != [] {
      SmallIsClear(ops[1..]);
    }
  }

  /** Where it fails: a value of nearly 4 GiB makes what is left behind the key's length wrap to less than the key. */
  lemma WrappedIsMissed(key: Bytes, value: Bytes)
    requires |key| == 10 && |value| == WORD - 6
    ensures !AllClear([Set(key, value)]) && ReadAll(EncodeAll([Set(key, value)])) == []
  {
    var op := Set(key, value);
    Varint5(|value|);
    assert |ValueOf(op)| == WORD - 1;
    assert EncodeAll([op]) == Encode(op) + [];
    MissedKey(op);
  }

  lemma MissedKey(op: Op)
    requires op.Set? && |op.key| < WORD && |op.key| > (|op.key| + |ValueOf(op)|) % WORD
    ensures Next(Encode(op) + []) == End
  {
    hide Varint, Length;
    var d := Encode(op) + [];
    assert d[1..] == Varint(|op.key|) + (op.key + ValueOf(op));
    LengthRead(|op.key|, op.key + ValueOf(op));
  }

  lemma NoneEncoded()
    ensures EncodeAll([]) == [] && Counted([]) == 0
  {
  }

  lemma {:induction false} EncodeAppend(ops: seq<Op>, op: Op)
    ensures EncodeAll(ops + [op]) == EncodeAll(ops) + Encode(op)
    decreases |ops|
  {
    hide Encode;
    if ops != [] {
      EncodeAppend(ops[1..], op);
      assert (ops + [op])[1..] == ops[1..] + [op];
    } else {
      assert [op][1..] == [];
    }
  }

  /** Operations that take a sequence number. */
  function Counted(ops: seq<Op>): nat {
    if ops == [] then 0 else (if ops[0].LogData? then 0 else 1) + Counted(ops[1..])
  }

  lemma {:induction false} CountAppend(ops: seq<Op>, op: Op)
    ensures Counted(ops + [op]) == Counted(ops) + (if op.LogData? then 0 else 1)
    decreases |ops|
  {
    if ops != [] {
      CountAppend(ops[1..], op);
      assert (ops + [op])[1..] == ops[1..] + [op];
    }
  }

  /** That is, all but log data. */
  lemma {:induction false} CountedIs(ops: seq<Op>)
    ensures Counted(ops) == |set j | 0 <= j < |ops| && !ops[j].LogData?|
    decreases |ops|
  {
    if ops != [] {
      var n := |ops| - 1;
      CountedIs(ops[..n]);
      CountAppend(ops[..n], ops[n]);
      assert ops == ops[..n] + [ops[n]];
      var before := set j | 0 <= j < |ops[..n]| && !ops[..n][j].LogData?;
      assert (set j | 0 <= j < |ops| && !ops[j].LogData?) == before + if ops[n].LogData? then {} else {n};
    }
  }

  /** prepareDeferredKeyValueRecord and prepareDeferredKeyRecord. */
  method MakeRecord(op: Op) returns (r: Bytes)
    ensures r == Encode(op)
  {
    var size := PutVarint(|op.key| % WORD);
    r := [KindOf(op)] + (size + op.key);
    if op.Set? {
      size := PutVarint(|op.value| % WORD);
      r := r + (size + op.value);
    } else {
      assert r + [] == r;
    }
  }

  class Batch {
    var data: Bytes
    var count: nat
    ghost var ops: seq<Op>

    constructor ()
      ensures Valid() && ops == []
    {
      data, count, ops := [], 0, [];
    }

    ghost predicate Valid()
      reads this
    {
      && count == Counted(ops) && Made(ops)
      && if data == [] then ops == [] else BATCH_HEADER <= |data| && data[BATCH_HEADER..] == EncodeAll(ops)
    }

    /** Set, Delete, PrefixDeleteKeySet and LogData: a record at the end; log data is not counted. */
    method Add(op: Op)
      requires Valid() && !op.Other?
      modifies this
      ensures Valid() && ops == old(ops) + [op]
    {
      hide Encode, EncodeAll, Counted;
      if data == [] {
        data := Zeros(BATCH_HEADER);
        NoneEncoded();
      }
      EncodeAppend(ops, op);
      CountAppend(ops, op);
      ghost var before := data;
      var record := MakeRecord(op);
      data := data + record;
      assert data[BATCH_HEADER..] == before[BATCH_HEADER..] + record;
      if !op.LogData? {
        count := count + 1;
      }
      ops := ops + [op];
    }

    /** The count goes into the header in 32 bits. */
    method Repr() returns (r: Bytes)
      requires Valid()
      modifies this`data
      ensures Valid() && r == data && BATCH_HEADER <= |r| && Get32(r, 8) == count % WORD && r[BATCH_HEADER..] == EncodeAll(ops)
      ensures old(data) != [] ==> r[..8] == old(data[..8])
    {
      if data == [] {
        data := Zeros(BATCH_HEADER);
      }
      var rest := data[BATCH_HEADER..];
      data := data[..8] + U32(count % WORD) + rest;
      assert data[8..12] == U32(count % WORD) && data[BATCH_HEADER..] == rest;
      Get32U32(data, 8, count % WORD);
      r := data;
    }
  }

  /** SetRepr and reading to the end. */
  method Read(repr: Bytes) returns (ops: Option<seq<Op>>, count: nat, panics: bool)
    ensures ops == None <==> |repr| < BATCH_HEADER
    ensures ops.Some? ==> ops.value == ReadAll(repr[BATCH_HEADER..]) && count == Get32(repr, 8)
    ensures panics <==> ops.Some? && Breaks(repr[BATCH_HEADER..])
  {
    if |repr| < BATCH_HEADER {
      return None, 0, false;
    }
    count := Get32(repr, 8);
    var d := repr[BATCH_HEADER..];
    var r := [];
    var n := Next(d);
    while n.Got?
      invariant r + ReadAll(d) == ReadAll(repr[BATCH_HEADER..]) && Breaks(d) == Breaks(repr[BATCH_HEADER..]) && n == Next(d)
      decreases |d|
    {
      assert r + ([n.value.0] + ReadAll(n.value.1)) == (r + [n.value.0]) + ReadAll(n.value.1);
      r, d := r + [n.value.0], n.value.1;
      n := Next(d);
    }
    ops, panics := Some(r), n.Panics?;
  }

  /**
    What a batch wrote is what its reader yields if and only if no length is misread, as in every batch below
    4 GiB; the header then has the number of operations to be numbered.
   */
  lemma {:induction false} BatchRoundTrip(ops: seq<Op>, repr: Bytes)
    requires Made(ops) && BATCH_HEADER <= |repr|
    requires repr[BATCH_HEADER..] == EncodeAll(ops) && Get32(repr, 8) == Counted(ops) % WORD
    ensures ReadAll(repr[BATCH_HEADER..]) == ops <==> AllClear(ops)
    ensures AllClear(ops) ==> !Breaks(repr[BATCH_HEADER..])
    ensures |repr| < WORD + BATCH_HEADER ==> AllClear(ops)
    ensures AllClear(ops) && Counted(ops) < WORD ==> Get32(repr, 8) == Counted(ReadAll(repr[BATCH_HEADER..]))
  {
    hide ReadAll, EncodeAll, AllClear, Breaks, Counted;
    if |repr| < WORD + BATCH_HEADER {
      SmallIsClear(ops);
    }
    AllRead(ops);
  }

  // ----- Applying a batch -----

  datatype Applied = Applied(op: Op, seqNum: nat)

  /** The operations with consecutive numbers from start; log data has none. */
  function Numbered(ops: seq<Op>, start: nat): seq<Applied> {
    if ops == [] then []
    else if ops[0].LogData? then Numbered(ops[1..], start)
    else [Applied(ops[0], start)] + Numbered(ops[1..], start + 1)
  }

  lemma {:induction false} NumberedInOrder(ops: seq<Op>, start: nat)
    ensures |Numbered(ops, start)| == Counted(ops)
    ensures forall i :: 0 <= i < |Numbered(ops, start)| ==> Numbered(ops, start)[i].seqNum == start + i && !Numbered(ops, start)[i].op.LogData?
    decreases |ops|
  {
    if ops != [] {
      NumberedInOrder(ops[1..], if ops[0].LogData? then start else start + 1);
    }
  }

  /** Each operation but log data has the number of those before it. */
  lemma {:induction false} NumberedAt(ops: seq<Op>, start: nat, j: nat)
    requires j < |ops| && !ops[j].LogData?
    ensures var i := Counted(ops[..j]); i < |Numbered(ops, start)| && Numbered(ops, start)[i] == Applied(ops[j], start + i)
    decreases j
  {
    if j > 0 {
      NumberedAt(ops[1..], if ops[0].LogData? then start else start + 1, j - 1);
      assert ops[..j][1..] == ops[1..][..j - 1];
    }
  }

  /** Some of all has been numbered, and left is still to come. */
  ghost predicate Progress(left: seq<Op>, seqNum: nat, entries: seq<Applied>, all: seq<Op>, start: nat) {
    entries + Numbered(left, seqNum) == Numbered(all, start) && seqNum + Counted(left) == start + Counted(all)
  }

  lemma {:induction false} NumberOne(op: Op, rest: seq<Op>, seqNum: nat, entries: seq<Applied>, all: seq<Op>, start: nat)
    requires Progress([op] + rest, seqNum, entries, all, start)
    ensures if op.LogData? then Progress(rest, seqNum, entries, all, start)
            else Progress(rest, seqNum + 1, entries + [Applied(op, seqNum)], all, start)
  {
    assert ([op] + rest)[1..] == rest;
  }

  ghost predicate Reads(d: Bytes, n: Got<(Op, Bytes)>) {
    if n.Got? then |n.value.1| < |d| && ReadAll(d) == [n.value.0] + ReadAll(n.value.1) && Breaks(d) == Breaks(n.value.1)
    else ReadAll(d) == [] && Breaks(d) == n.Panics?
  }

  method ReadNext(d: Bytes) returns (n: Got<(Op, Bytes)>)
    ensures n == Next(d) && Reads(d, n)
  {
    n := Next(d);
  }

  /** memTable.apply on the records of a batch; false for a number before the memtable's own, or a wrong count in the header. */
  method Apply(records: Bytes, count: nat, start: nat, created: nat) returns (entries: seq<Applied>, ok: bool, panics: bool)
    ensures entries == if start < created then [] else Numbered(ReadAll(records), start)
    ensures ok <==> created <= start && Counted(ReadAll(records)) == count && !panics
    ensures panics <==> created <= start && Breaks(records)
  {
    hide Next, ReadAll, Breaks;
    if start < created {
      return [], false, false;
    }
    var d := records;
    var seqNum: nat := start;
    entries := [];
    var n := ReadNext(d);
    while n.Got?
      invariant Reads(d, n) && Breaks(d) == Breaks(records) && Progress(ReadAll(d), seqNum, entries, ReadAll(records), start)
      decreases |d|
    {
      var op := n.value.0;
      NumberOne(op, ReadAll(n.value.1), seqNum, entries, ReadAll(records), start);
      d := n.value.1;
      if !op.LogData? {
        entries := entries + [Applied(op, seqNum)];
        seqNum := seqNum + 1;
      }
      n := ReadNext(d);
    }
    panics := n.Panics?;
    ok := !panics && seqNum == start + count;
  }
}
