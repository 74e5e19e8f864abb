/**
 * The stable comparison sort behind `Array.prototype.sort`, over a
 * "sorts strictly before" relation derived from a comparator.
 */
module Sorting {
  /** No later element sorts strictly before an earlier one. */
  predicate Sorted<T>(s: seq<T>, before: (T, T) -> bool)
  {
    forall i, j :: 0 <= i < j < |s| ==> !before(s[j], s[i])
  }

  /**
   * On the values that satisfy `ok`, `before` is a strict weak order:
   * asymmetric, and "does not sort before" is transitive.
   */
  ghost predicate StrictWeakOrder<T(!new)>(before: (T, T) -> bool, ok: T -> bool)
  {
    (forall a, b :: ok(a) && ok(b) && before(a, b) ==> !before(b, a)) &&
    (forall a, b, c :: ok(a) && ok(b) && ok(c) && !before(b, a) && !before(c, b) ==> !before(c, a))
  }

  predicate All<T>(s: seq<T>, ok: T -> bool)
  {
    forall i :: 0 <= i < |s| ==> ok(s[i])
  }

  /** Insert `x` in front of the first element that does not sort strictly before it. */
  function Insert<T>(x: T, s: seq<T>, before: (T, T) -> bool): (r: seq<T>)
    ensures multiset(r) == multiset(s) + multiset{x}
    ensures |r| == |s| + 1
    ensures forall i :: 0 <= i < |r| ==> r[i] == x || r[i] in s
  {
    if s == [] || !before(s[0], x) then [x] + s
    else
      assert s == [s[0]] + s[1..];
      [s[0]] + Insert(x, s[1..], before)
  }

  /** A stable insertion sort: equal elements keep their input order. */
  function Sort<T>(s: seq<T>, before: (T, T) -> bool): (r: seq<T>)
    ensures multiset(r) == multiset(s)
    ensures |r| == |s|
  {
    if s == [] then []
    else
      assert s == [s[0]] + s[1..];
      Insert(s[0], Sort(s[1..], before), before)
  }

  lemma ConsSorted<T>(h: T, tail: seq<T>, before: (T, T) -> bool)
    requires Sorted(tail, before)
    requires forall j :: 0 <= j < |tail| ==> !before(tail[j], h)
    ensures Sorted([h] + tail, before)
  {
    var r := [h] + tail;
    forall i, j | 0 <= i < j < |r|
      ensures !before(r[j], r[i])
    {
      assert r[j] == tail[j - 1];
      if i > 0 {
        assert r[i] == tail[i - 1];
      }
    }
  }

  lemma {:induction false} InsertSorted<T(!new)>(x: T, s: seq<T>, before: (T, T) -> bool, ok: T -> bool)
    requires StrictWeakOrder(before, ok)
    requires ok(x) && All(s, ok) && Sorted(s, before)
    ensures All(Insert(x, s, before), ok)
    ensures Sorted(Insert(x, s, before), before)
  {
    if s == [] || !before(s[0], x) {
      forall j | 0 <= j < |s|
        ensures !before(s[j], x)
      {
        if j > 0 {
          assert !before(s[j], s[0]);
        }
      }
      ConsSorted(x, s, before);
    } else {
      var tail := Insert(x, s[1..], before);
      InsertSorted(x, s[1..], before, ok);
      forall j | 0 <= j < |tail|
        ensures !before(tail[j], s[0])
      {
        if tail[j] != x {
          var k :| 0 <= k < |s[1..]| && s[1..][k] == tail[j];
          assert s[k + 1] == tail[j];
        }
      }
      ConsSorted(s[0], tail, before);
    }
  }

  /** Under a strict weak order the sort's output is sorted. */
  lemma {:induction false} SortSorted<T(!new)>(s: seq<T>, before: (T, T) -> bool, ok: T -> bool)
    requires StrictWeakOrder(before, ok) && All(s, ok)
    ensures Sorted(Sort(s, before), before)
    ensures All(Sort(s, before), ok)
  {
    if s != [] {
      SortSorted(s[1..], before, ok);
      InsertSorted(s[0], Sort(s[1..], before), before, ok);
    }
  }

  /** How many leading elements of `s` sort strictly before `x`. */
  function LeadingBefore<T>(x: T, s: seq<T>, before: (T, T) -> bool): (p: nat)
    ensures p <= |s|
    ensures forall j :: 0 <= j < p ==> before(s[j], x)
    ensures p < |s| ==> !before(s[p], x)
  {
    if s == [] || !before(s[0], x) then 0
    else
      var p := LeadingBefore(x, s[1..], before);
      assert forall j :: 1 <= j < p + 1 ==> s[j] == s[1..][j - 1];
      p + 1
  }

  /**
   * `x` lands right after the leading elements that sort strictly before
   * it, so it stays in front of the equal elements that followed it in the input.
   */
  lemma {:induction false} InsertPosition<T>(x: T, s: seq<T>, before: (T, T) -> bool)
    ensures var p := LeadingBefore(x, s, before);
      Insert(x, s, before) == s[..p] + [x] + s[p..]
  {
    if s != [] && before(s[0], x) {
      var t := s[1..];
      InsertPosition(x, t, before);
      var p := LeadingBefore(x, t, before);
      SpliceAfterHead(s, x, p);
    } else {
      assert s[..0] == [] && s[0..] == s;
    }
  }

  /** Splicing `x` in after the head and `p` more elements of `s`. */
  lemma SpliceAfterHead<T>(s: seq<T>, x: T, p: nat)
    requires p < |s|
    ensures [s[0]] + (s[1..][..p] + [x] + s[1..][p..]) == s[..p + 1] + [x] + s[p + 1..]
  {
    assert s[..p + 1] == [s[0]] + s[1..][..p];
    assert s[p + 1..] == s[1..][p..];
  }
}
