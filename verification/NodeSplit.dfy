/**
  Splitting a B+ tree node that outgrew its page (bitree/bdb/node.go): which inodes go to which page.
 */
module NodeSplit {

  const MIN_KEYS := 2          // minKeysPerPage
  const HEADER := 16           // pageHeaderSize
  const ELEMENT := 16          // of a leaf and of a branch page

  /** The sizes of an inode's key and value. */
  datatype Inode = Inode(key: nat, value: nat)

  function Weight(i: Inode): nat { ELEMENT + i.key + i.value }

  /** What a node with these inodes takes on a page. */
  function Size(s: seq<Inode>): nat {
    if s == [] then HEADER else Size(s[..|s| - 1]) + Weight(s[|s| - 1])
  }

  function KeyBytes(s: seq<Inode>): nat { if s == [] then 0 else s[0].key + KeyBytes(s[1..]) }

  function ValueBytes(s: seq<Inode>): nat { if s == [] then 0 else s[0].value + ValueBytes(s[1..]) }

  /** A page header, 16 bytes for each inode, and all keys and values. */
  lemma {:induction false} SizeIsSum(s: seq<Inode>)
    ensures Size(s) == 16 + 16 * |s| + KeyBytes(s) + ValueBytes(s)
    decreases |s|
  {
    if s != [] {
      SizeIsSum(s[..|s| - 1]);
      BytesOfLast(s);
    }
  }

  lemma {:induction false} BytesOfLast(s: seq<Inode>)
    requires s != []
    ensures KeyBytes(s) == KeyBytes(s[..|s| - 1]) + s[|s| - 1].key && ValueBytes(s) == ValueBytes(s[..|s| - 1]) + s[|s| - 1].value
    decreases |s|
  {
    if |s| > 1 {
      BytesOfLast(s[1..]);
      assert s[1..][..|s| - 2] == s[..|s| - 1][1..];
    }
  }

  lemma {:induction false} SizeGrows(s: seq<Inode>, i: nat)
    requires i <= |s|
    ensures Size(s[..i]) <= Size(s)
    decreases |s|
  {
    if i < |s| {
      SizeGrows(s[..|s| - 1], i);
      assert s[..|s| - 1][..i] == s[..i];
    } else {
      assert s[..i] == s;
    }
  }

  /** sizeLessThan: stops at the first inode that reaches the limit. */
  method SizeLessThan(s: seq<Inode>, limit: nat) returns (less: bool)
    ensures less <==> s == [] || Size(s) < limit
  {
    var size, i := HEADER, 0;
    while i < |s|
      invariant i <= |s| && size == Size(s[..i])
      invariant i > 0 ==> size < limit
    {
      assert s[..i + 1][..i] == s[..i];
      size := size + Weight(s[i]);
      if size >= limit {
        SizeGrows(s, i + 1);
        return false;
      }
      i := i + 1;
    }
    assert s[..i] == s;
    return true;
  }

  /** The first page's share: as many inodes as fit the threshold, at least two, and leaving at least two. */
  method SplitIndex(s: seq<Inode>, threshold: nat) returns (index: nat)
    requires |s| > 2 * MIN_KEYS
    ensures MIN_KEYS <= index < |s| - MIN_KEYS
    ensures Size(s[..index]) <= threshold || index == MIN_KEYS
    ensures index < |s| - MIN_KEYS - 1 ==> Size(s[..index + 1]) > threshold
  {
    var size, i := HEADER, 0;
    index := 0;
    while i < |s| - MIN_KEYS
      invariant 0 <= i <= |s| - MIN_KEYS && size == Size(s[..i]) && index == (if i == 0 then 0 else i - 1)
      invariant i > MIN_KEYS ==> Size(s[..i]) <= threshold
    {
      index := i;
      assert s[..i + 1][..i] == s[..i];
      if index >= MIN_KEYS && size + Weight(s[i]) > threshold {
        return;
      }
      size := size + Weight(s[i]);
      i := i + 1;
    }
    SizeGrows(s[..i], index);
    assert s[..i][..index] == s[..index];
  }

  /** The fill factor, kept between a tenth and the whole page. */
  function Threshold(pageSize: nat, fill: real): (t: nat)
    ensures t <= pageSize
  {
    var f := if fill < 0.1 then 0.1 else if fill > 1.0 then 1.0 else fill;
    Scaled(pageSize as real, f);
    (pageSize as real * f).Floor
  }

  lemma ThresholdIs(pageSize: nat, fill: real)
    ensures var t := Threshold(pageSize, fill);
      if fill < 0.1 then 10 * t <= pageSize < 10 * t + 10
      else if fill <= 1.0 then t as real <= pageSize as real * fill < t as real + 1.0
      else t == pageSize
  {
    if fill < 0.1 {
      FloorOf(pageSize as real * 0.1);
    } else if fill <= 1.0 {
      FloorOf(pageSize as real * fill);
    } else {
      assert pageSize as real * 1.0 == pageSize as real;
    }
  }

  lemma FloorOf(x: real)
    ensures x.Floor as real <= x < x.Floor as real + 1.0
  {
  }

  lemma Scaled(p: real, f: real)
    requires 0.0 <= p && 0.0 <= f <= 1.0
    ensures 0.0 <= p * f <= p
  {
    assert p * (1.0 - f) >= 0.0;
  }

  method SplitTwo(s: seq<Inode>, pageSize: nat, fill: real) returns (a: seq<Inode>, b: seq<Inode>)
    ensures a + b == s
    ensures b == [] <==> |s| <= 2 * MIN_KEYS || Size(s) < pageSize
    ensures b != [] ==> MIN_KEYS <= |a| && MIN_KEYS < |b| && (Size(a) <= Threshold(pageSize, fill) || |a| == MIN_KEYS)
    ensures b != [] ==> Tight(a, b[0], |b|, pageSize, fill)
  {
    var less := SizeLessThan(s, pageSize);
    if |s| <= 2 * MIN_KEYS || less {
      return s, [];
    }
    var index := SplitIndex(s, Threshold(pageSize, fill));
    a, b := s[..index], s[index..];
    assert s[..index + 1] == a + [b[0]];
  }

  /** The next inode did not fit any more, or had to stay with the two after it. */
  predicate Tight(p: seq<Inode>, first: Inode, left: nat, pageSize: nat, fill: real) {
    Size(p + [first]) > Threshold(pageSize, fill) || left == MIN_KEYS + 1
  }

  predicate TightAt(pieces: seq<seq<Inode>>, i: nat, pageSize: nat, fill: real)
    requires i + 1 < |pieces|
  {
    var next := pieces[i + 1];
    next != [] && Tight(pieces[i], next[0], if i + 2 == |pieces| then |next| else 0, pageSize, fill)
  }

  /** Every page but the last holds as much as it may. */
  ghost predicate AllTight(pieces: seq<seq<Inode>>, pageSize: nat, fill: real) {
    forall i :: 0 <= i < |pieces| - 1 ==> TightAt(pieces, i, pageSize, fill)
  }

  function Concat(pieces: seq<seq<Inode>>): seq<Inode> {
    if pieces == [] then [] else Concat(pieces[..|pieces| - 1]) + pieces[|pieces| - 1]
  }

  /** A page that is not the last: filled up to the threshold, or with two inodes that are too big. */
  predicate Full(p: seq<Inode>, pageSize: nat, fill: real) {
    MIN_KEYS <= |p| && (Size(p) <= Threshold(pageSize, fill) || |p| == MIN_KEYS)
  }

  /** Pages cut off so far, and the inodes still to be placed. */
  ghost predicate Part(pieces: seq<seq<Inode>>, rest: seq<Inode>, s: seq<Inode>, pageSize: nat, fill: real) {
    && Concat(pieces) + rest == s && (forall i :: 0 <= i < |pieces| ==> Full(pieces[i], pageSize, fill))
    && if pieces == [] then rest == s else MIN_KEYS < |rest| && |s| > 2 * MIN_KEYS && Size(s) >= pageSize
  }

  predicate Fits(s: seq<Inode>, pageSize: nat) { |s| <= 2 * MIN_KEYS || Size(s) < pageSize }

  lemma PartGrows(pieces: seq<seq<Inode>>, rest: seq<Inode>, a: seq<Inode>, b: seq<Inode>, s: seq<Inode>, pageSize: nat, fill: real)
    requires Part(pieces, rest, s, pageSize, fill) && a + b == rest && MIN_KEYS < |b| && Full(a, pageSize, fill) && !Fits(rest, pageSize)
    ensures Part(pieces + [a], b, s, pageSize, fill)
  {
    Append(pieces, a);
    assert Concat(pieces) + (a + b) == Concat(pieces) + a + b;
  }

  lemma TightGrows(pieces: seq<seq<Inode>>, rest: seq<Inode>, a: seq<Inode>, b: seq<Inode>, pageSize: nat, fill: real)
    requires AllTight(pieces + [rest], pageSize, fill) && a + b == rest && MIN_KEYS <= |a| && MIN_KEYS < |b| && Tight(a, b[0], |b|, pageSize, fill)
    ensures AllTight(pieces + [a] + [b], pageSize, fill)
  {
    var before, after := pieces + [rest], pieces + [a] + [b];
    forall i | 0 <= i < |after| - 1
      ensures TightAt(after, i, pageSize, fill)
    {
      if i < |pieces| {
        assert TightAt(before, i, pageSize, fill);
        assert after[i] == before[i] && after[i + 1][0] == before[i + 1][0];
      }
    }
  }

  lemma Append(pieces: seq<seq<Inode>>, a: seq<Inode>)
    ensures Concat(pieces + [a]) == Concat(pieces) + a
  {
    assert (pieces + [a])[..|pieces|] == pieces;
  }

  /** split: all pages of a node. */
  method Split(s: seq<Inode>, pageSize: nat, fill: real) returns (pieces: seq<seq<Inode>>)
    ensures pieces != [] && Concat(pieces) == s
    ensures forall i :: 0 <= i < |pieces| - 1 ==> Full(pieces[i], pageSize, fill)
    ensures Fits(pieces[|pieces| - 1], pageSize) && (|pieces| > 1 ==> MIN_KEYS < |pieces[|pieces| - 1]|)
    ensures |pieces| == 1 <==> Fits(s, pageSize)
    ensures AllTight(pieces, pageSize, fill)
  {
    hide Tight, TightAt;
    pieces := [];
    var a, b := SplitTwo(s, pageSize, fill);
    ghost var rest := s;
    while b != []
      invariant Part(pieces, rest, s, pageSize, fill) && a + b == rest
      invariant b == [] <==> Fits(rest, pageSize)
      invariant b != [] ==> MIN_KEYS < |b| && Full(a, pageSize, fill) && Tight(a, b[0], |b|, pageSize, fill)
      invariant AllTight(pieces + [rest], pageSize, fill)
      decreases |b|
    {
      TightGrows(pieces, rest, a, b, pageSize, fill);
      PartGrows(pieces, rest, a, b, s, pageSize, fill);
      pieces := pieces + [a];
      rest := b;
      a, b := SplitTwo(b, pageSize, fill);
    }
    assert a == rest;
    Append(pieces, a);
    pieces := pieces + [a];
  }
}
