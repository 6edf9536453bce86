/**
  Internal keys (internal/base/internal.go) and the plain cursor over a sorted run of them that every
  iterator of the repository is meant to behave like.
 */
module Entries {
  import opened Common

  datatype Kind = Delete | Set | PrefixDelete

  datatype Entry = Entry(user: int, seqNum: nat, kind: Kind, value: int)

  function Code(k: Kind): nat {
    match k
    case Delete => 0
    case Set => 1
    case PrefixDelete => 4
  }

  function Trailer(e: Entry): nat { e.seqNum * 256 + Code(e.kind) }

  /** InternalCompare: by user key, and for equal user keys the greater trailer first. */
  predicate Less(a: Entry, b: Entry) {
    a.user < b.user || (a.user == b.user && Trailer(a) > Trailer(b))
  }

  /** Neither is before the other: the same internal key. */
  predicate SameKey(a: Entry, b: Entry) {
    a.user == b.user && a.seqNum == b.seqNum && a.kind == b.kind
  }

  lemma LessIsTotal(a: Entry, b: Entry)
    ensures Less(a, b) || Less(b, a) || SameKey(a, b)
    ensures !(Less(a, b) && Less(b, a)) && !(Less(a, b) && SameKey(a, b))
    ensures a.user < b.user ==> Less(a, b)
    ensures a.user == b.user && a.seqNum > b.seqNum ==> Less(a, b)
  {
  }

  predicate Sorted(s: seq<Entry>) {
    forall i, j :: 0 <= i < j < |s| ==> Less(s[i], s[j])
  }

  /** How many entries have a smaller user key. */
  function Below(s: seq<Entry>, user: int): (n: nat)
    ensures n <= |s|
  {
    if s == [] || s[0].user >= user then 0 else 1 + Below(s[1..], user)
  }

  lemma {:induction false} BelowSplits(s: seq<Entry>, user: int)
    requires Sorted(s)
    ensures forall j :: 0 <= j < |s| ==> (j < Below(s, user) <==> s[j].user < user)
    decreases |s|
  {
    if s != [] {
      if s[0].user < user {
        BelowSplits(s[1..], user);
        forall j | 0 < j < |s|
          ensures j < Below(s, user) <==> s[j].user < user
        {
          assert s[j] == s[1..][j - 1];
        }
      } else {
        forall j | 0 < j < |s|
          ensures s[j].user >= user
        {
          assert Less(s[0], s[j]);
        }
      }
    }
  }

  // ----- The cursor -----

  /** A place in a sorted run: before the first entry, at one, or past the last. */
  datatype Cursor = Cursor(list: seq<Entry>, pos: int) {
    predicate Ok() { Sorted(list) && -1 <= pos <= |list| }

    function Current(): Option<Entry> {
      if 0 <= pos < |list| then Some(list[pos]) else None
    }

    function First(): Cursor { this.(pos := 0) }
    function Last(): Cursor { this.(pos := |list| - 1) }
    function Next(): Cursor { if pos < |list| then this.(pos := pos + 1) else this }
    function Prev(): Cursor { if -1 < pos then this.(pos := pos - 1) else this }
    function SeekGE(user: int): Cursor { this.(pos := Below(list, user)) }
    function SeekLT(user: int): Cursor { this.(pos := Below(list, user) - 1) }
  }
}
