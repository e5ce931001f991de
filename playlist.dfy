/** The ordered track list with its `current` (last started) and `selected` (UI cursor)
    indices, both in [-1, length), -1 meaning none. */
module Playlist {
  import opened Scanner
  import opened Config

  // ---------------------------------------------------------------------------------------
  // Cursor arithmetic

  /** `NextIndex` without shuffle: the track after `current` in a list of `count` tracks.
      Repeat One stays on the current track; past the end, All wraps to 0 and Off gives -1. */
  function SequentialNext(count: nat, current: int, repeat: RepeatMode): (r: int)
    requires -1 <= current < count
    ensures -1 <= r < count
    ensures count == 0 ==> r == -1
    ensures count > 0 && repeat == One && current >= 0 ==> r == current
    ensures count > 0 && repeat == All ==> r == (current + 1) % count
    ensures count > 0 && repeat == Off ==> (r == -1 <==> current == count - 1)
    ensures r != -1 && !(repeat == One && current >= 0) ==> r == (current + 1) % count
    ensures count > 0 && current < count - 1 && !(repeat == One && current >= 0) ==> r == current + 1
  {
    if count == 0 then -1
    else if repeat == One && current >= 0 then current
    else
      var next := current + 1;
      if next >= count then
        assert next == count && next % count == 0;
        if repeat == All then 0 else -1
      else
        assert 0 <= next < count && next % count == next;
        next
  }

  /** `PrevIndex`: the track before `current`. Repeat One stays on the current track; before
      the start, All wraps to the last track and Off gives -1. */
  function SequentialPrev(count: nat, current: int, repeat: RepeatMode): (r: int)
    requires -1 <= current < count
    ensures -1 <= r < count
    ensures count == 0 ==> r == -1
    ensures count > 0 && repeat == One && current >= 0 ==> r == current
    ensures count > 0 && repeat == All && current >= 0 ==> r == (current - 1) % count
    ensures count > 0 && repeat == All && current < 0 ==> r == count - 1
    ensures count > 0 && repeat == Off ==> (r == -1 <==> current <= 0)
    ensures count > 0 && repeat == Off && current > 0 ==> r == current - 1
    ensures count > 0 && repeat == One && current < 0 ==> r == -1
  {
    if count == 0 then -1
    else if repeat == One && current >= 0 then current
    else
      var prev := current - 1;
      if prev < 0 then (if repeat == All then count - 1 else -1)
      else prev
  }

  /** Under repeat All, Prev undoes Next and Next undoes Prev on every track. */
  lemma WrapRoundTrip(count: nat, current: int)
    requires 0 <= current < count
    ensures SequentialPrev(count, SequentialNext(count, current, All), All) == current
    ensures SequentialNext(count, SequentialPrev(count, current, All), All) == current
  {
  }

  /** Under repeat Off, Prev undoes Next wherever Next does not run off the end. */
  lemma OffRoundTrip(count: nat, current: int)
    requires 0 <= current < count - 1
    ensures SequentialPrev(count, SequentialNext(count, current, Off), Off) == current
  {
  }

  /** Two tracks with the first current: Next and Prev under All both give the second one;
      a single track under Off has no next. */
  lemma CursorExamples()
    ensures SequentialNext(2, 0, All) == 1 && SequentialPrev(2, 0, All) == 1
    ensures SequentialNext(1, 0, Off) == -1
  {
  }

  // ---------------------------------------------------------------------------------------
  // Sort keys

  /** `std::string::operator<`: lexicographic order on characters. A proper prefix comes
      first, and no string comes before itself. */
  function StrLess(a: string, b: string): (r: bool)
    ensures |a| < |b| && a == b[..|a|] ==> r
    ensures r ==> a != b
  {
    if a == [] then b != []
    else if b == [] then false
    else if a[0] != b[0] then a[0] < b[0]
    else
      assert |a| < |b| && a == b[..|a|] ==> a[1..] == b[1..][..|a| - 1];
      StrLess(a[1..], b[1..])
  }

  /** The textbook lexicographic order: `a` is a proper prefix of `b`, or at the first
      position where they differ `a` holds the smaller character. */
  ghost predicate LexLess(a: string, b: string)
  {
    || (|a| < |b| && a == b[..|a|])
    || exists k :: 0 <= k < |a| && k < |b| && a[..k] == b[..k] && a[k] < b[k]
  }

  /** Strings that differ in their first character are ordered by it. */
  lemma LexLessHeadsDiffer(a: string, b: string)
    requires a != [] && b != [] && a[0] != b[0]
    ensures LexLess(a, b) <==> a[0] < b[0]
  {
    if a[0] < b[0] {
      assert a[..0] == b[..0];
    }
    forall k | 0 < k <= |a| && k <= |b|
      ensures a[..k] != b[..k]
    {
      assert a[..k][0] == a[0] && b[..k][0] == b[0];
    }
  }

  /** A common first character does not change the order of the rest. */
  lemma LexLessDropHead(a: string, b: string)
    requires a != [] && b != [] && a[0] == b[0] && LexLess(a, b)
    ensures LexLess(a[1..], b[1..])
  {
    var a', b' := a[1..], b[1..];
    if |a| < |b| && a == b[..|a|] {
      assert a' == b'[..|a'|];
    } else {
      var k :| 0 <= k < |a| && k < |b| && a[..k] == b[..k] && a[k] < b[k];
      assert k > 0;
      assert a'[..k - 1] == a[..k][1..] && b'[..k - 1] == b[..k][1..];
      assert a'[k - 1] == a[k];
    }
  }

  /** Putting the same character in front of both strings keeps their order. */
  lemma LexLessAddHead(a: string, b: string)
    requires a != [] && b != [] && a[0] == b[0] && LexLess(a[1..], b[1..])
    ensures LexLess(a, b)
  {
    var a', b' := a[1..], b[1..];
    assert a == [a[0]] + a' && b == [b[0]] + b';
    if |a'| < |b'| && a' == b'[..|a'|] {
      assert b[..|a|] == [b[0]] + b'[..|a'|];
    } else {
      var k :| 0 <= k < |a'| && k < |b'| && a'[..k] == b'[..k] && a'[k] < b'[k];
      assert a[..k + 1] == [a[0]] + a'[..k] && b[..k + 1] == [b[0]] + b'[..k];
      assert a[k + 1] == a'[k] && b[k + 1] == b'[k];
    }
  }

  /** The recursive comparison is the lexicographic order. */
  lemma {:induction false} StrLessIsLexicographic(a: string, b: string)
    ensures StrLess(a, b) <==> LexLess(a, b)
  {
    if a == [] {
      if b != [] {
        assert a == b[..0];
      }
    } else if b == [] {
    } else if a[0] != b[0] {
      LexLessHeadsDiffer(a, b);
    } else {
      StrLessIsLexicographic(a[1..], b[1..]);
      if LexLess(a, b) {
        LexLessDropHead(a, b);
      }
      if LexLess(a[1..], b[1..]) {
        LexLessAddHead(a, b);
      }
    }
  }

  lemma {:induction false} StrLessIrreflexive(a: string)
    ensures !StrLess(a, a)
  {
    if a != [] {
      StrLessIrreflexive(a[1..]);
    }
  }

  lemma {:induction false} StrLessTransitive(a: string, b: string, c: string)
    requires StrLess(a, b) && StrLess(b, c)
    ensures StrLess(a, c)
  {
    if a != [] && b != [] && c != [] && a[0] == b[0] && b[0] == c[0] {
      StrLessTransitive(a[1..], b[1..], c[1..]);
    }
  }

  lemma {:induction false} StrLessTotal(a: string, b: string)
    requires a != b
    ensures StrLess(a, b) || StrLess(b, a)
  {
    if a != [] && b != [] && a[0] == b[0] {
      assert a == [a[0]] + a[1..] && b == [b[0]] + b[1..];
      StrLessTotal(a[1..], b[1..]);
    }
  }

  /** The comparator `Sort` hands to `std::sort` for each mode. */
  function Precedes(mode: SortMode, x: TrackEntry, y: TrackEntry): (r: bool)
    ensures r ==> x != y
  {
    match mode
    case Name => StrLess(x.displayName, y.displayName)
    case Date => x.modified < y.modified
    case Size => x.size < y.size
  }

  lemma StrLessAsymmetric(a: string, b: string)
    requires StrLess(a, b)
    ensures !StrLess(b, a)
  {
    if StrLess(b, a) {
      StrLessTransitive(a, b, a);
      StrLessIrreflexive(a);
    }
  }

  lemma PrecedesAsymmetric(mode: SortMode, x: TrackEntry, y: TrackEntry)
    requires Precedes(mode, x, y)
    ensures !Precedes(mode, y, x)
  {
    if mode == Name {
      StrLessAsymmetric(x.displayName, y.displayName);
    }
  }

  /** "Not after" is transitive: the comparator is a strict weak order. */
  lemma NotPrecedesTransitive(mode: SortMode, a: TrackEntry, b: TrackEntry, c: TrackEntry)
    requires !Precedes(mode, b, a) && !Precedes(mode, c, b)
    ensures !Precedes(mode, c, a)
  {
    if mode == Name {
      var sa, sb, sc := a.displayName, b.displayName, c.displayName;
      if sa != sb { StrLessTotal(sa, sb); }
      if sb != sc { StrLessTotal(sb, sc); }
      if sa != sb && sb != sc { StrLessTransitive(sa, sb, sc); }
      if sa == sc {
        StrLessIrreflexive(sa);
      } else {
        StrLessAsymmetric(sa, sc);
      }
    }
  }

  /** Ordered by the mode's key: no element precedes an earlier one. */
  ghost predicate SortedBy(mode: SortMode, s: seq<TrackEntry>)
  {
    forall i, j :: 0 <= i < j < |s| ==> !Precedes(mode, s[j], s[i])
  }

  /** Inserts `x` into a sorted list before the first element that does not precede it. */
  function Insert(mode: SortMode, x: TrackEntry, s: seq<TrackEntry>): (r: seq<TrackEntry>)
    requires SortedBy(mode, s)
    ensures SortedBy(mode, r)
    ensures multiset(r) == multiset(s) + multiset{x}
  {
    if s == [] then [x]
    else if !Precedes(mode, s[0], x) then
      InsertAtFront(mode, x, s);
      [x] + s
    else
      var rest := Insert(mode, x, s[1..]);
      InsertBehindHead(mode, x, s, rest);
      [s[0]] + rest
  }

  lemma InsertAtFront(mode: SortMode, x: TrackEntry, s: seq<TrackEntry>)
    requires SortedBy(mode, s) && s != [] && !Precedes(mode, s[0], x)
    ensures SortedBy(mode, [x] + s)
  {
    forall j | 0 < j < |s|
      ensures !Precedes(mode, s[j], x)
    {
      NotPrecedesTransitive(mode, x, s[0], s[j]);
    }
  }

  lemma InsertBehindHead(mode: SortMode, x: TrackEntry, s: seq<TrackEntry>, rest: seq<TrackEntry>)
    requires SortedBy(mode, s) && s != [] && Precedes(mode, s[0], x)
    requires SortedBy(mode, rest) && multiset(rest) == multiset(s[1..]) + multiset{x}
    ensures SortedBy(mode, [s[0]] + rest)
    ensures multiset([s[0]] + rest) == multiset(s) + multiset{x}
  {
    PrecedesAsymmetric(mode, s[0], x);
    assert s == [s[0]] + s[1..];
    forall j | 0 <= j < |rest|
      ensures !Precedes(mode, rest[j], s[0])
    {
      assert rest[j] in multiset(rest);
      if rest[j] != x {
        assert rest[j] in multiset(s[1..]);
        var k :| 0 <= k < |s[1..]| && s[1..][k] == rest[j];
        assert s[k + 1] == rest[j];
      }
    }
    var r := [s[0]] + rest;
    forall i, j | 0 <= i < j < |r|
      ensures !Precedes(mode, r[j], r[i])
    {
      if i > 0 {
        assert r[i] == rest[i - 1] && r[j] == rest[j - 1];
      }
    }
  }

  /** A sorted permutation of `s` by the mode's key. */
  function InsertionSort(mode: SortMode, s: seq<TrackEntry>): (r: seq<TrackEntry>)
    ensures SortedBy(mode, r)
    ensures multiset(r) == multiset(s)
  {
    if s == [] then []
    else
      assert s == [s[0]] + s[1..];
      Insert(mode, s[0], InsertionSort(mode, s[1..]))
  }

  // ---------------------------------------------------------------------------------------
  // The playlist object

  class Playlist {
    var items: seq<TrackEntry>
    var current: int
    var selected: int

    /** Both cursors are a track index or -1. */
    ghost predicate Valid()
      reads this
    {
      -1 <= current < |items| && -1 <= selected < |items|
    }

    constructor ()
      ensures Valid() && items == [] && current == -1 && selected == -1
    {
      items, current, selected := [], -1, -1;
    }

    method Clear()
      modifies this
      ensures Valid() && items == [] && current == -1 && selected == -1
    {
      items := [];
      current := -1;
      selected := -1;
    }

    /** Appends a track; the selection moves to the first track only if there was none. */
    method Add(entry: TrackEntry)
      requires Valid()
      modifies this
      ensures Valid()
      ensures items == old(items) + [entry] && current == old(current)
      ensures selected == if old(selected) < 0 then 0 else old(selected)
    {
      items := items + [entry];
      if selected < 0 {
        selected := 0;
      }
    }

    /** Replaces the list; both cursors go to the first track, or to -1 for an empty list. */
    method SetItems(newItems: seq<TrackEntry>)
      modifies this
      ensures Valid() && items == newItems
      ensures current == selected == if newItems == [] then -1 else 0
    {
      items := newItems;
      current := if items == [] then -1 else 0;
      selected := current;
    }

    /** Stores `idx` if it is a track index, else -1. */
    method SetCurrent(idx: int)
      requires Valid()
      modifies this`current
      ensures Valid()
      ensures current == if 0 <= idx < |items| then idx else -1
    {
      current := if idx >= 0 && idx < |items| then idx else -1;
    }

    /** Stores `idx` if it is a track index, else -1. */
    method SetSelected(idx: int)
      requires Valid()
      modifies this`selected
      ensures Valid()
      ensures selected == if 0 <= idx < |items| then idx else -1
    {
      selected := if idx >= 0 && idx < |items| then idx else -1;
    }

    /** A uniformly drawn index other than `exclude`; the draw itself is modelled as an
        arbitrary choice. */
    method RandomIndex(exclude: int) returns (r: int)
      ensures |items| == 0 ==> r == -1
      ensures |items| == 1 ==> r == 0
      ensures |items| >= 2 ==> 0 <= r < |items| && r != exclude
    {
      if |items| == 0 {
        return -1;
      }
      if |items| == 1 {
        return 0;
      }
      var other := if exclude == 0 then 1 else 0;
      assert 0 <= other < |items| && other != exclude;
      r :| 0 <= r < |items| && r != exclude;
    }

    /** The next track to play. Repeat One on a current track overrides shuffle; shuffle picks
        any other track; otherwise the order of SequentialNext. */
    method NextIndex(repeat: RepeatMode, shuffle: bool) returns (r: int)
      requires Valid()
      ensures -1 <= r < |items|
      ensures !shuffle || |items| == 0 || (repeat == One && current >= 0)
              ==> r == SequentialNext(|items|, current, repeat)
      ensures shuffle && |items| == 1 ==> r == 0
      ensures shuffle && |items| >= 2 && !(repeat == One && current >= 0) ==> r >= 0 && r != current
    {
      if |items| == 0 {
        return -1;
      }
      if repeat == One && current >= 0 {
        return current;
      }
      if shuffle {
        r := RandomIndex(current);
        return;
      }
      var next := current + 1;
      if next >= |items| {
        return if repeat == All then 0 else -1;
      }
      return next;
    }

    function PrevIndex(repeat: RepeatMode): (r: int)
      requires Valid()
      reads this
      ensures -1 <= r < |items|
      ensures r == SequentialPrev(|items|, current, repeat)
    {
      SequentialPrev(|items|, current, repeat)
    }

    /** The first index whose path equals `path`, or -1. */
    method FindIndexByPath(path: string) returns (r: int)
      ensures -1 <= r < |items|
      ensures r >= 0 ==> items[r].path == path
      ensures forall i :: 0 <= i < |items| && (r == -1 || i < r) ==> items[i].path != path
    {
      var i := 0;
      while i < |items|
        invariant 0 <= i <= |items|
        invariant forall k :: 0 <= k < i ==> items[k].path != path
      {
        if items[i].path == path {
          return i;
        }
        i := i + 1;
      }
      return -1;
    }

    /** Reorders the tracks by the mode's key; the cursors keep their numeric values. */
    method Sort(mode: SortMode)
      requires Valid()
      modifies this`items
      ensures Valid()
      ensures SortedBy(mode, items) && multiset(items) == multiset(old(items))
      ensures current == old(current) && selected == old(selected)
    {
      var sorted := InsertionSort(mode, items);
      assert |sorted| == |items| by {
        assert |multiset(sorted)| == |multiset(items)|;
      }
      items := sorted;
    }
  }

  /** Two tracks, the first current: Next and Prev under All both pick the second one. */
  method WrapScenario()
  {
    var pl := new Playlist();
    pl.Add(TrackEntry("a", "a", 0, 0));
    pl.Add(TrackEntry("b", "b", 0, 0));
    pl.SetCurrent(0);
    var next := pl.NextIndex(All, false);
    assert next == 1 && pl.PrevIndex(All) == 1;
  }
}
