/**
  The iterators users and flushes see (iterator.go, compaction_iter.go), over an inner iterator that
  moves like a cursor through all versions of all keys. Iterator shows the live view: the newest
  version of each user key, unless it is a deletion.
 */
module UserIter {
  import opened Common
  import opened Entries

  /** The newest version of a user key: the first of its run. */
  predicate Head(all: seq<Entry>, q: int)
    requires 0 <= q < |all|
  {
    q == 0 || all[q - 1].user != all[q].user
  }

  predicate IsLive(all: seq<Entry>, q: int)
    requires 0 <= q < |all|
  {
    Head(all, q) && all[q].kind == Set
  }

  /** The live entries among the first n. */
  function LiveUpTo(all: seq<Entry>, n: nat): seq<Entry>
    requires n <= |all|
  {
    if n == 0 then [] else LiveUpTo(all, n - 1) + (if IsLive(all, n - 1) then [all[n - 1]] else [])
  }

  function Live(all: seq<Entry>): seq<Entry> { LiveUpTo(all, |all|) }

  /** The place in the live view of a live entry, or of either end. */
  function Rank(all: seq<Entry>, g: int): int
    requires -1 <= g <= |all|
  {
    if g == -1 then -1 else |LiveUpTo(all, g)|
  }

  /** Behind a version with the sequence number 0 there is no other of its user key. */
  ghost predicate Versions(all: seq<Entry>) {
    Sorted(all) && forall i :: 0 < i < |all| && all[i - 1].seqNum == 0 ==> all[i].user != all[i - 1].user
  }

  ghost predicate NoneLive(all: seq<Entry>, a: int, b: int) {
    forall h :: a <= h < b && 0 <= h < |all| ==> !IsLive(all, h)
  }

  // ----- What there is to see -----

  /** No version of the user key has a greater trailer. */
  ghost predicate Greatest(all: seq<Entry>, q: int)
    requires 0 <= q < |all|
  {
    forall r :: 0 <= r < |all| && all[r].user == all[q].user ==> Trailer(all[r]) <= Trailer(all[q])
  }

  /** The version with the greatest trailer of its user key, and not a deletion. */
  ghost predicate IsNewest(all: seq<Entry>, q: int)
    requires 0 <= q < |all|
  {
    Greatest(all, q) && all[q].kind == Set
  }

  /** The newest version of user key k sets it to v. */
  ghost predicate Shown(all: seq<Entry>, k: int, v: int) {
    exists q :: 0 <= q < |all| && Greatest(all, q) && all[q].kind == Set && all[q].user == k && all[q].value == v
  }

  /** User key k exists: its newest version is not a deletion. */
  ghost predicate Present(all: seq<Entry>, k: int) {
    exists v :: Shown(all, k, v)
  }

  datatype Move = ToFirst | ToLast | From(user: int) | Under(user: int) | After(user: int) | Before(user: int)

  /** The user keys that a move is to choose from. */
  predicate Wanted(m: Move, k: int) {
    match m
    case ToFirst => true
    case ToLast => true
    case From(user) => k >= user
    case Under(user) => k < user
    case After(user) => k > user
    case Before(user) => k < user
  }

  predicate Backward(m: Move) { m.ToLast? || m.Under? || m.Before? }

  /** The move ends at the nearest key that exists among those wanted, or is exhausted if there is none. */
  ghost predicate Lands(all: seq<Entry>, m: Move, valid: bool, key: int, value: int) {
    && (valid <==> exists k :: Present(all, k) && Wanted(m, k))
    && (valid ==> Shown(all, key, value) && Wanted(m, key))
    && (valid ==> forall k :: Present(all, k) && Wanted(m, k) ==> if Backward(m) then k <= key else key <= k)
  }

  lemma Rises(all: seq<Entry>, p: nat, q: nat)
    requires Sorted(all) && p < q < |all| && Head(all, q)
    ensures all[p].user < all[q].user
  {
    assert Less(all[q - 1], all[q]);
    assert p < q - 1 ==> Less(all[p], all[q - 1]);
  }

  lemma HeadIsGreatest(all: seq<Entry>, q: nat)
    requires Sorted(all) && q < |all|
    ensures Head(all, q) <==> Greatest(all, q)
  {
    if q > 0 && all[q - 1].user == all[q].user {
      assert Less(all[q - 1], all[q]);
    } else {
      forall r | 0 <= r < |all| && all[r].user == all[q].user
        ensures Trailer(all[r]) <= Trailer(all[q])
      {
        if r < q {
          Rises(all, r, q);
        } else if q < r {
          assert Less(all[q], all[r]);
        }
      }
    }
  }

  // ----- The live view -----

  lemma AllNewest(all: seq<Entry>)
    requires Sorted(all)
    ensures forall q :: 0 <= q < |all| ==> (IsLive(all, q) <==> IsNewest(all, q))
  {
    forall q | 0 <= q < |all|
      ensures IsLive(all, q) <==> IsNewest(all, q)
    {
      HeadIsGreatest(all, q);
    }
  }

  lemma {:induction false} LiveStays(all: seq<Entry>, a: nat, b: nat)
    requires a <= b <= |all| && NoneLive(all, a, b)
    ensures LiveUpTo(all, b) == LiveUpTo(all, a)
    decreases b
  {
    if a < b {
      LiveStays(all, a, b - 1);
    }
  }

  lemma {:induction false} LivePrefix(all: seq<Entry>, a: nat, b: nat)
    requires a <= b <= |all|
    ensures LiveUpTo(all, a) <= LiveUpTo(all, b)
    decreases b
  {
    if a < b {
      LivePrefix(all, a, b - 1);
    }
  }

  /** A live entry is in the view at its rank. */
  lemma LiveAt(all: seq<Entry>, g: nat)
    requires g < |all| && IsLive(all, g)
    ensures Rank(all, g) < |Live(all)| && Live(all)[Rank(all, g)] == all[g]
  {
    LivePrefix(all, g + 1, |all|);
  }

  /** The next live entry, or the end, is one place on. */
  lemma RankNext(all: seq<Entry>, g: int, h: nat)
    requires -1 <= g < h <= |all| && (0 <= g ==> IsLive(all, g)) && NoneLive(all, g + 1, h)
    ensures Rank(all, h) == Rank(all, g) + 1
  {
    LiveStays(all, g + 1, h);
  }

  lemma RankPrev(all: seq<Entry>, g: nat, h: int)
    requires -1 <= h < g <= |all| && (0 <= h ==> IsLive(all, h)) && NoneLive(all, h + 1, g)
    ensures Rank(all, h) == Rank(all, g) - 1
  {
    LiveStays(all, h + 1, g);
  }

  /** The view lists live entries in order. */
  lemma {:induction false} LiveFrom(all: seq<Entry>, n: nat, v: nat) returns (q: nat)
    requires n <= |all| && v < |LiveUpTo(all, n)|
    ensures q < n && IsLive(all, q) && all[q] == LiveUpTo(all, n)[v] && Rank(all, q) == v
    decreases n
  {
    if v < |LiveUpTo(all, n - 1)| {
      q := LiveFrom(all, n - 1, v);
    } else {
      q := n - 1;
    }
  }

  /** The view has exactly the newest versions that are not deletions. */
  lemma LiveIsShown(all: seq<Entry>, e: Entry)
    requires Sorted(all)
    ensures e in Live(all) <==> exists q :: 0 <= q < |all| && all[q] == e && Greatest(all, q) && e.kind == Set
  {
    if e in Live(all) {
      var v :| 0 <= v < |Live(all)| && Live(all)[v] == e;
      var q := LiveFrom(all, |all|, v);
      HeadIsGreatest(all, q);
    }
    if q :| 0 <= q < |all| && all[q] == e && Greatest(all, q) && e.kind == Set {
      HeadIsGreatest(all, q);
      LiveAt(all, q);
    }
  }

  lemma ShownInView(all: seq<Entry>, k: int, v: int)
    requires Sorted(all)
    ensures Shown(all, k, v) <==> exists i :: 0 <= i < |Live(all)| && Live(all)[i].user == k && Live(all)[i].value == v
  {
    if q :| 0 <= q < |all| && Greatest(all, q) && all[q].kind == Set && all[q].user == k && all[q].value == v {
      LiveIsShown(all, all[q]);
      assert all[q] in Live(all);
    }
    if i :| 0 <= i < |Live(all)| && Live(all)[i].user == k && Live(all)[i].value == v {
      assert Live(all)[i] in Live(all);
      LiveIsShown(all, Live(all)[i]);
    }
  }

  /** A place in the view with exactly the wanted keys on its far side is where the move ends. */
  lemma PlaceLands(all: seq<Entry>, m: Move, n: int)
    requires Sorted(all) && -1 <= n <= |Live(all)| && (Backward(m) ==> n < |Live(all)|) && (!Backward(m) ==> 0 <= n)
    requires forall i :: 0 <= i < |Live(all)| ==> (Wanted(m, Live(all)[i].user) <==> if Backward(m) then i <= n else n <= i)
    ensures if 0 <= n < |Live(all)| then Lands(all, m, true, Live(all)[n].user, Live(all)[n].value) else forall k, v :: Lands(all, m, false, k, v)
  {
    hide Live, Shown, LiveUpTo;
    LiveSorted(all);
    forall k | Present(all, k) && Wanted(m, k)
      ensures 0 <= n < |Live(all)| && if Backward(m) then k <= Live(all)[n].user else Live(all)[n].user <= k
    {
      var v :| Shown(all, k, v);
      ShownInView(all, k, v);
    }
    if 0 <= n < |Live(all)| {
      ShownInView(all, Live(all)[n].user, Live(all)[n].value);
      assert Present(all, Live(all)[n].user);
    }
  }

  lemma LiveSorted(all: seq<Entry>)
    requires Sorted(all)
    ensures Sorted(Live(all))
    ensures forall i, j :: 0 <= i < j < |Live(all)| ==> Live(all)[i].user < Live(all)[j].user
  {
    forall i, j | 0 <= i < j < |Live(all)|
      ensures Live(all)[i].user < Live(all)[j].user
    {
      var p := LiveFrom(all, |all|, i);
      var q := LiveFrom(all, |all|, j);
      if q <= p {
        LivePrefix(all, q, p);
        assert false;
      }
      Rises(all, p, q);
    }
  }

  /** Seeking in the view is seeking among all versions. */
  lemma LiveBelow(all: seq<Entry>, user: int)
    requires Sorted(all)
    ensures Below(Live(all), user) == |LiveUpTo(all, Below(all, user))|
  {
    var b := Below(all, user);
    var n := |LiveUpTo(all, b)|;
    BelowSplits(all, user);
    LivePrefix(all, b, |all|);
    forall v | 0 <= v < |Live(all)|
      ensures v < n <==> Live(all)[v].user < user
    {
      var q := LiveFrom(all, |all|, v);
      if q < b {
        LivePrefix(all, q + 1, b);
      } else {
        LivePrefix(all, b, q);
      }
    }
    BelowIs(Live(all), user, n);
  }

  lemma {:induction false} BelowIs(s: seq<Entry>, user: int, n: nat)
    requires n <= |s| && (forall v :: 0 <= v < n ==> s[v].user < user) && (n < |s| ==> s[n].user >= user)
    ensures Below(s, user) == n
    decreases n
  {
    if n > 0 {
      BelowIs(s[1..], user, n - 1);
    }
  }

  // ----- Iterator -----

  datatype Pos = CurForward | CurReverse | AtPrev
  datatype LastOp = Unknown | SeekedGE | SeekedLT

  class Iterator {
    ghost const all: seq<Entry>
    var iter: Cursor          // the inner iterator; its current entry is iterKey
    var key: int
    var value: int
    var valid: bool
    var pos: Pos
    var lastOp: LastOp
    var seekKey: int
    ghost var g: int          // the entry the iterator stands at, or an end

    /** A new iterator stands past the end. */
    constructor (all: seq<Entry>)
      requires Versions(all)
      ensures Valid() && this.all == all && g == |all|
    {
      this.all := all;
      iter, key, value, valid, pos, lastOp, seekKey, g := Cursor(all, |all|), 0, 0, false, CurForward, Unknown, 0, |all|;
    }

    ghost predicate Valid()
      reads this
    {
      && Versions(all) && iter.list == all && -1 <= g <= |all|
      && Shows() && Remembers(lastOp, seekKey)
    }

    ghost predicate Shows()
      reads this
    {
      if valid then
        && 0 <= g < |all| && IsLive(all, g) && key == all[g].user && value == all[g].value
        && ((pos == CurForward && iter.pos == g) || (pos == AtPrev && iter.pos == g - 1))
      else
        (pos == CurForward && g == iter.pos == |all|) || (pos == CurReverse && g == iter.pos == -1)
    }

    /** After a seek, what it was for. */
    ghost predicate Remembers(op: LastOp, k: int)
      reads this
    {
      match op
      case Unknown => true
      case SeekedGE => pos == CurForward && (valid ==> k <= key) && forall h :: 0 <= h < g && h < |all| && IsLive(all, h) ==> all[h].user < k
      case SeekedLT => pos != CurForward && (valid ==> key < k) && forall h :: g < h < |all| && 0 <= h && IsLive(all, h) ==> k <= all[h].user
    }

    /** The cursor over the live view this iterator stands for. */
    ghost function View(): Cursor
      requires -1 <= g <= |all|
      reads this
    {
      Cursor(Live(all), Rank(all, g))
    }
  
    ghost predicate Scanning()
      reads this
    {
      Versions(all) && iter.list == all && -1 <= iter.pos <= |all|
    }

    /** The inner iterator goes on to the first version of the next user key. */
    method NextUserKey()
      requires Scanning() && (valid && 0 <= iter.pos < |all| ==> key == all[iter.pos].user)
      modifies this`iter, this`key
      ensures Scanning() && (iter.pos < |all| && 0 <= iter.pos ==> Head(all, iter.pos))
      ensures old(iter.pos) < 0 || old(iter.pos) == |all| ==> iter == old(iter) && key == old(key)
      ensures 0 <= old(iter.pos) < |all| ==> old(iter.pos) < iter.pos && NoneLive(all, old(iter.pos) + 1, iter.pos)
    {
      if iter.Current() == None {
        return;
      }
      ghost var q := iter.pos;
      var done := iter.Current().value.seqNum == 0;
      if !valid {
        key := iter.Current().value.user;
      }
      iter := iter.Next();
      while !done && iter.Current().Some? && key == iter.Current().value.user
        invariant Scanning() && q < iter.pos && key == all[q].user
        invariant forall h :: q < h < iter.pos ==> all[h].user == key
        invariant done ==> all[iter.pos - 1].seqNum == 0
        decreases |all| - iter.pos
        modifies this`iter
      {
        done := iter.Current().value.seqNum == 0;
        iter := iter.Next();
      }
      NotHeads(all, q, iter.pos);
    }

    /** On to the first live entry at or after the inner iterator's place. */
    method FindNextEntry()
      requires Scanning() && 0 <= iter.pos && (iter.pos < |all| ==> Head(all, iter.pos))
      modifies this`iter, this`key, this`value, this`valid, this`pos, this`g
      ensures Scanning() && Shows() && pos == CurForward && old(iter.pos) <= g <= |all| && NoneLive(all, old(iter.pos), g)
      ensures (valid <==> g < |all|) && (valid ==> key == all[g].user && value == all[g].value && IsNewest(all, g))
      ensures forall h :: old(iter.pos) <= h < g ==> !IsNewest(all, h)
    {
      hide IsNewest;
      valid, pos := false, CurForward;
      ghost var from := iter.pos;
      while iter.Current().Some? && !valid
        invariant Scanning() && 0 <= iter.pos && (iter.pos < |all| ==> Head(all, iter.pos)) && pos == CurForward
        invariant from <= iter.pos && NoneLive(all, from, iter.pos)
        invariant valid ==> iter.pos < |all| && all[iter.pos].kind == Set && key == all[iter.pos].user && value == all[iter.pos].value
        decreases !valid, |all| - iter.pos
        modifies this`iter, this`key, this`value, this`valid
      {
        var e := iter.Current().value;
        if e.kind == Set {
          key, value, valid := e.user, e.value, true;
        } else {
          NextUserKey();
        }
      }
      g := iter.pos;
      AllNewest(all);
    }

    /** Back to the last version of the user key before. */
    method PrevUserKey()
      requires Scanning() && (valid && 0 <= iter.pos < |all| ==> key == all[iter.pos].user)
      modifies this`iter, this`key
      ensures Scanning() && iter.pos <= old(iter.pos)
      ensures old(iter.pos) < 0 || old(iter.pos) == |all| ==> iter == old(iter)
      ensures 0 <= old(iter.pos) < |all| ==> iter.pos < old(iter.pos) && (0 <= iter.pos ==> all[iter.pos].user != all[old(iter.pos)].user)
      ensures 0 <= old(iter.pos) < |all| ==> forall h :: iter.pos < h <= old(iter.pos) ==> all[h].user == all[old(iter.pos)].user
    {
      if iter.Current() == None {
        return;
      }
      ghost var q := iter.pos;
      if !valid {
        key := iter.Current().value.user;
      }
      iter := iter.Prev();
      while iter.Current().Some? && key == iter.Current().value.user
        invariant Scanning() && iter.pos < q == old(iter.pos) && key == all[q].user
        invariant forall h :: iter.pos < h <= q ==> all[h].user == key
        decreases iter.pos
        modifies this`iter
      {
        iter := iter.Prev();
      }
    }

    /** Back to the last live entry at or before the inner iterator's place. */
    method FindPrevEntry()
      requires Scanning() && iter.pos < |all|
      modifies this`iter, this`key, this`value, this`valid, this`pos, this`g
      ensures Scanning() && Shows() && pos != CurForward && -1 <= g <= old(iter.pos) && NoneLive(all, g + 1, old(iter.pos) + 1)
      ensures (valid <==> 0 <= g) && (valid ==> key == all[g].user && value == all[g].value && IsNewest(all, g))
      ensures forall h :: g < h <= old(iter.pos) ==> !IsNewest(all, h)
    {
      hide IsNewest;
      valid, pos := false, CurReverse;
      ghost var from := iter.pos;
      while iter.Current().Some? && !(valid && iter.Current().value.user != key)
        invariant Scanning() && iter.pos <= from < |all| && pos == CurReverse && Scanned(from)
        decreases iter.pos
        modifies this`iter, this`key, this`value, this`valid
      {
        var e := iter.Current().value;
        if e.kind == Set {
          key, value, valid := e.user, e.value, true;
        } else {
          valid := false;
        }
        iter := iter.Prev();
      }
      g := if valid then iter.pos + 1 else -1;
      if valid {
        pos := AtPrev;
      }
      AllNewest(all);
    }

    method First()
      requires Valid()
      modifies this`iter, this`key, this`value, this`valid, this`pos, this`lastOp, this`g
      ensures Valid() && View() == old(View()).First()
      ensures Lands(all, ToFirst, valid, key, value)
    {
      lastOp := Unknown;
      iter := iter.First();
      FindNextEntry();
      RankNext(all, -1, g);
      ShowsPlace(ToFirst);
    }

    method Last()
      requires Valid()
      modifies this`iter, this`key, this`value, this`valid, this`pos, this`lastOp, this`g
      ensures Valid() && View() == old(View()).Last()
      ensures Lands(all, ToLast, valid, key, value)
    {
      lastOp := Unknown;
      iter := iter.Last();
      FindPrevEntry();
      RankPrev(all, |all|, g);
      ShowsPlace(ToLast);
    }

    /** On to the next live entry, from whichever side the iterator came. */
    method Next()
      requires Valid()
      modifies this`iter, this`key, this`value, this`valid, this`pos, this`lastOp, this`g
      ensures Valid() && View() == old(View()).Next()
      ensures if old(valid) then Lands(all, After(old(key)), valid, key, value)
        else if old(g) == -1 then Lands(all, ToFirst, valid, key, value) else !valid
    {
      hide Lands, Shown, IsNewest;
      ghost var from := g;
      lastOp := Unknown;
      StepForward();
      FindNextEntry();
      if from < |all| {
        RankNext(all, from, g);
        if 0 <= from {
          LiveAt(all, from);
          LiveSorted(all);
          ShowsPlace(After(all[from].user));
        } else {
          ShowsPlace(ToFirst);
        }
      }
    }

    /** Puts the inner iterator past the current user key. */
    method StepForward()
      requires Valid()
      modifies this`iter, this`key, this`valid
      ensures Scanning() && 0 <= iter.pos && (iter.pos < |all| ==> Head(all, iter.pos))
      ensures if old(g) == |all| then iter.pos == |all| else old(g) < iter.pos && NoneLive(all, old(g) + 1, iter.pos)
    {
      match pos
      case CurForward => NextUserKey();
      case CurReverse =>
        if iter.Current() != None {
          // an error in the code: the iterator would not be at the front
          assert false;
        }
        iter := iter.First();
      case AtPrev =>
        valid := false;
        if iter.Current() == None {
          iter := iter.First();
        } else {
          NextUserKey();
        }
        NextUserKey();
    }

    /** Back to the live entry before, from whichever side the iterator came. */
    method Prev()
      requires Valid()
      modifies this`iter, this`key, this`value, this`valid, this`pos, this`lastOp, this`g
      ensures Valid() && View() == old(View()).Prev()
      ensures if old(valid) then Lands(all, Before(old(key)), valid, key, value)
        else if old(g) == |all| then Lands(all, ToLast, valid, key, value) else !valid
    {
      hide Lands, Shown, IsNewest;
      ghost var from := g;
      lastOp := Unknown;
      StepBackward();
      FindPrevEntry();
      if 0 <= from {
        RankPrev(all, from, g);
        if from < |all| {
          LiveAt(all, from);
          LiveSorted(all);
          ShowsPlace(Before(all[from].user));
        } else {
          ShowsPlace(ToLast);
        }
      }
    }

    /** Puts the inner iterator before the current user key. */
    method StepBackward()
      requires Valid()
      modifies this`iter, this`key, this`valid
      ensures Scanning() && iter.pos == if old(g) == -1 then -1 else old(g) - 1
    {
      if pos == CurReverse {
        PrevUserKey();
      }
      if pos == CurForward {
        valid := false;
        if iter.Current() == None {
          iter := iter.Last();
        } else {
          PrevUserKey();
        }
      }
    }

    /** To the first live entry at or above k; a seek forward from where a seek already ended may not move at all. */
    method SeekGE(k: int)
      requires Valid()
      modifies this`iter, this`key, this`value, this`valid, this`pos, this`lastOp, this`seekKey, this`g
      ensures Valid() && View() == old(View()).SeekGE(k)
      ensures Lands(all, From(k), valid, key, value)
    {
      hide Lands, Live, Rank, IsLive, LiveUpTo, IsNewest;
      if lastOp == SeekedGE && seekKey <= k && (!valid || k <= key) {
        StaysGE(k);
        return;
      }
      lastOp := Unknown;
      iter := iter.SeekGE(k);
      BelowSplits(all, k);
      FindNextEntry();
      LandsGE(k);
      seekKey, lastOp := k, SeekedGE;
      StaysGE(k);
    }

    /** To the last live entry below k. */
    method SeekLT(k: int)
      requires Valid()
      modifies this`iter, this`key, this`value, this`valid, this`pos, this`lastOp, this`seekKey, this`g
      ensures Valid() && View() == old(View()).SeekLT(k)
      ensures Lands(all, Under(k), valid, key, value)
    {
      hide Lands, Live, Rank, IsLive, LiveUpTo, IsNewest;
      if lastOp == SeekedLT && k <= seekKey && (!valid || key < k) {
        StaysLT(k);
        return;
      }
      lastOp := Unknown;
      iter := iter.SeekLT(k);
      BelowSplits(all, k);
      FindPrevEntry();
      LandsLT(k);
      seekKey, lastOp := k, SeekedLT;
      StaysLT(k);
    }

    /** The shortcut: nothing live lies between the two seek keys. */
    lemma StaysGE(k: int)
      requires Valid() && lastOp == SeekedGE && seekKey <= k && (!valid || k <= key)
      ensures Rank(all, g) == Below(Live(all), k) && Lands(all, From(k), valid, key, value)
    {
      BelowSplits(all, k);
      LiveBelow(all, k);
      var b := Below(all, k);
      assert 0 <= g;
      LiveStays(all, b, g);
      LiveSorted(all);
      BelowSplits(Live(all), k);
      ShowsPlace(From(k));
    }

    lemma StaysLT(k: int)
      requires Valid() && lastOp == SeekedLT && k <= seekKey && (!valid || key < k)
      ensures Rank(all, g) == Below(Live(all), k) - 1 && Lands(all, Under(k), valid, key, value)
    {
      BelowSplits(all, k);
      LiveBelow(all, k);
      var b := Below(all, k);
      LiveStays(all, g + 1, b);
      LiveSorted(all);
      BelowSplits(Live(all), k);
      ShowsPlace(Under(k));
    }

    lemma LandsGE(k: int)
      requires Versions(all) && Shows() && pos == CurForward && -1 <= g <= |all| && Below(all, k) <= g && NoneLive(all, Below(all, k), g)
      ensures Rank(all, g) == Below(Live(all), k) && Remembers(SeekedGE, k)
    {
      BelowSplits(all, k);
      LiveBelow(all, k);
      LiveStays(all, Below(all, k), g);
    }

    lemma LandsLT(k: int)
      requires Versions(all) && Shows() && pos != CurForward && -1 <= g < Below(all, k) && NoneLive(all, g + 1, Below(all, k))
      ensures Rank(all, g) == Below(Live(all), k) - 1 && Remembers(SeekedLT, k)
    {
      BelowSplits(all, k);
      LiveBelow(all, k);
      LiveStays(all, g + 1, Below(all, k));
    }

    /** What is shown where a move ends in the view. */
    lemma ShowsPlace(m: Move)
      requires Valid() && var n := View().pos;
        && (Backward(m) ==> n < |Live(all)|) && (!Backward(m) ==> 0 <= n)
        && forall i :: 0 <= i < |Live(all)| ==> (Wanted(m, Live(all)[i].user) <==> if Backward(m) then i <= n else n <= i)
      ensures Lands(all, m, valid, key, value)
    {
      ShowsView();
      LivePrefix(all, if g < 0 then 0 else g, |all|);
      PlaceLands(all, m, View().pos);
    }

    /** What the iterator shows is what the cursor over the live view stands at. */
    lemma ShowsView()
      requires Valid()
      ensures if valid then View().Current() == Some(all[g]) && key == all[g].user && value == all[g].value else View().Current() == None
    {
      if valid {
        LiveAt(all, g);
      }
    }

    /** What has been seen on the way back from an entry. */
    ghost predicate Scanned(from: int)
      reads this
    {
      && NoneLive(all, iter.pos + 2, from + 1)
      && (iter.pos == from ==> !valid)
      && (0 <= iter.pos + 1 <= from && from < |all| ==> (valid <==> all[iter.pos + 1].kind == Set))
      && (0 <= iter.pos + 1 < |all| && valid ==> key == all[iter.pos + 1].user && value == all[iter.pos + 1].value)
    }
  }

  lemma NotHeads(all: seq<Entry>, q: int, p: int)
    requires 0 <= q < p <= |all| && Versions(all)
    requires forall h :: q < h < p ==> all[h].user == all[q].user
    ensures NoneLive(all, q + 1, p)
    ensures p < |all| && all[p].user == all[q].user ==> all[p - 1].seqNum > 0
  {
    assert p < |all| && p - 1 > q ==> all[p - 1].user == all[q].user;
  }

  // ----- Compaction iterator -----

  /** One entry per user key, the newest, from the q-th version on. */
  function Newest(all: seq<Entry>, q: nat): seq<Entry>
    requires q <= |all|
    decreases |all| - q
  {
    if q == |all| then [] else (if Head(all, q) then [all[q]] else []) + Newest(all, q + 1)
  }

  lemma {:induction false} NewestSkips(all: seq<Entry>, p: nat, q: nat)
    requires p <= q <= |all| && forall h :: p <= h < q ==> !Head(all, h)
    ensures Newest(all, p) == Newest(all, q)
    decreases q - p
  {
    if p < q {
      NewestSkips(all, p + 1, q);
    }
  }

  /** It is the version with the greatest trailer of each user key. */
  lemma {:induction false} NewestIsHighest(all: seq<Entry>, p: nat, e: Entry)
    requires Sorted(all) && p <= |all| && (p < |all| ==> Head(all, p))
    ensures e in Newest(all, p) <==> exists q :: p <= q < |all| && all[q] == e && Greatest(all, q)
  {
    if e in Newest(all, p) {
      var q := NewestFrom(all, p, e);
      HeadIsGreatest(all, q);
    }
    if exists q :: p <= q < |all| && all[q] == e && Greatest(all, q) {
      var q :| p <= q < |all| && all[q] == e && Greatest(all, q);
      HeadIsGreatest(all, q);
      HeadIsNewest(all, p, q);
    }
  }

  /** User keys come out in ascending order, each once. */
  lemma {:induction false} NewestAscends(all: seq<Entry>, p: nat)
    requires Sorted(all) && p <= |all|
    ensures forall i, j :: 0 <= i < j < |Newest(all, p)| ==> Newest(all, p)[i].user < Newest(all, p)[j].user
    decreases |all| - p
  {
    if p < |all| {
      NewestAscends(all, p + 1);
      var rest := Newest(all, p + 1);
      forall j | 0 <= j < |rest|
        ensures all[p].user < rest[j].user
      {
        var q := NewestFrom(all, p + 1, rest[j]);
        Rises(all, p, q);
      }
    }
  }

  lemma {:induction false} NewestFrom(all: seq<Entry>, p: nat, e: Entry) returns (q: nat)
    requires p <= |all| && e in Newest(all, p)
    ensures p <= q < |all| && all[q] == e && Head(all, q)
    decreases |all| - p
  {
    if Head(all, p) && all[p] == e {
      q := p;
    } else {
      q := NewestFrom(all, p + 1, e);
    }
  }

  lemma {:induction false} HeadIsNewest(all: seq<Entry>, p: nat, q: nat)
    requires p <= q < |all| && Head(all, q)
    ensures all[q] in Newest(all, p)
    decreases q - p
  {
    if p < q {
      HeadIsNewest(all, p + 1, q);
    }
  }

  datatype Stripe = NewStripe | SameStripe

  class CompactionIter {
    ghost const all: seq<Entry>
    var iter: Cursor
    var user: int          // the user key last returned
    var skip: bool
    var atEntry: bool      // pos is iterPosCurForward

    constructor (all: seq<Entry>)
      requires Sorted(all)
      ensures this.all == all && iter == Cursor(all, -1)
    {
      this.all := all;
      iter, user, skip, atEntry := Cursor(all, -1), 0, false, false;
    }

    ghost predicate Valid()
      reads this
    {
      && Sorted(all) && iter.list == all && 0 <= iter.pos <= |all| && atEntry
      && (iter.pos < |all| ==> skip && Head(all, iter.pos) && user == all[iter.pos].user)
    }

    /** What is still to come. */
    ghost function Rest(): seq<Entry>
      requires Valid()
      reads this
    {
      if iter.pos < |all| then Newest(all, iter.pos + 1) else []
    }

    method First() returns (r: Option<Entry>)
      requires Sorted(all) && iter.list == all
      modifies this
      ensures Valid() && Newest(all, 0) == if r == None then [] else [r.value] + Rest()
    {
      iter := iter.First();
      atEntry := false;
      r := Emit();
    }

    /** The next user key's newest version. */
    method Next() returns (r: Option<Entry>)
      requires Valid()
      modifies this
      ensures Valid() && old(Rest()) == if r == None then [] else [r.value] + Rest()
    {
      ghost var q := iter.pos;
      if skip {
        SkipInStripe();
        if q < |all| {
          NewestSkips(all, q + 1, iter.pos);
        }
      } else {
        var change := NextInStripe();
      }
      r := Emit();
    }

    method Emit() returns (r: Option<Entry>)
      requires Sorted(all) && iter.list == all && 0 <= iter.pos <= |all| && (iter.pos < |all| ==> Head(all, iter.pos))
      modifies this`user, this`skip, this`atEntry
      ensures Valid() && r == iter.Current() && Newest(all, iter.pos) == if r == None then [] else [r.value] + Rest()
    {
      atEntry := true;
      r := iter.Current();
      if r.Some? {
        user, skip := r.value.user, true;
      }
    }

    method NextInStripe() returns (change: Stripe)
      requires iter.list == all && 0 <= iter.pos <= |all|
      modifies this`iter
      ensures iter == old(iter).Next()
      ensures change == if iter.pos < |all| && all[iter.pos].user == user then SameStripe else NewStripe
    {
      iter := iter.Next();
      change := if iter.Current().Some? && iter.Current().value.user == user then SameStripe else NewStripe;
    }

    method SkipInStripe()
      requires Valid() && skip
      modifies this`iter, this`skip
      ensures iter.list == all && 0 <= old(iter.pos) <= iter.pos <= |all| && (iter.pos < |all| ==> Head(all, iter.pos)) && !skip
      ensures old(iter.pos) < |all| ==> old(iter.pos) < iter.pos && forall h :: old(iter.pos) < h < iter.pos ==> !Head(all, h)
    {
      ghost var q := iter.pos;
      var change := NextInStripe();
      while change == SameStripe
        invariant iter.list == all && 0 <= q <= iter.pos <= |all| && (q < |all| ==> q < iter.pos)
        invariant change == if iter.pos < |all| && all[iter.pos].user == user then SameStripe else NewStripe
        invariant q < |all| ==> forall h :: q < h < iter.pos ==> all[h].user == user
        decreases |all| - iter.pos
        modifies this`iter
      {
        change := NextInStripe();
      }
      skip := false;
    }
  }
}
