/** Sequences of time intervals that stay inside bounds and follow each other forwards or
    backwards in time, and the operations (filtering, concatenation) that keep them so. */
module Intervals {
  import opened Common
  import opened Windows

  /** Every interval is well formed and lies inside `[lo, hi]`. */
  ghost predicate Within(s: seq<Interval>, lo: int, hi: int)
  {
    forall i :: 0 <= i < |s| ==> lo <= s[i].start <= s[i].end <= hi
  }

  /** Later intervals come after earlier ones (`reverse` false) or before them (`reverse` true),
      without overlap. */
  ghost predicate Ordered(s: seq<Interval>, reverse: bool)
  {
    forall i, j :: 0 <= i < j < |s| ==> Precedes(s[i], s[j], reverse)
  }

  /** `a` is visited before `b` in the given direction. */
  predicate Precedes(a: Interval, b: Interval, reverse: bool)
  {
    if reverse then b.end <= a.start else a.end <= b.start
  }

  /** The intervals `keep` accepts, in order. */
  function KeepIntervals(s: seq<Interval>, keep: Interval -> bool): (r: seq<Interval>)
    decreases |s|
  {
    if |s| == 0 then []
    else (if keep(s[0]) then [s[0]] else []) + KeepIntervals(s[1..], keep)
  }

  /** `KeepIntervals` keeps exactly the accepted intervals. */
  lemma {:induction false} KeepMembership(s: seq<Interval>, keep: Interval -> bool, x: Interval)
    ensures x in KeepIntervals(s, keep) <==> x in s && keep(x)
    decreases |s|
  {
    if |s| > 0 {
      KeepMembership(s[1..], keep, x);
      assert s == [s[0]] + s[1..];
    }
  }

  /** After the first interval, the rest of an ordered sequence lies on the far side of it. */
  lemma RestBeyondFirst(s: seq<Interval>, reverse: bool, lo: int, hi: int)
    requires |s| > 0 && Within(s, lo, hi) && Ordered(s, reverse)
    ensures reverse ==> Within(s[1..], lo, s[0].start)
    ensures !reverse ==> Within(s[1..], s[0].end, hi)
    ensures Ordered(s[1..], reverse)
  {
    var rest := s[1..];
    forall i | 0 <= i < |rest|
      ensures rest[i] == s[i + 1] && Precedes(s[0], s[i + 1], reverse)
    {
    }
    forall i, j | 0 <= i < j < |rest|
      ensures Precedes(rest[i], rest[j], reverse)
    {
      assert rest[i] == s[i + 1] && rest[j] == s[j + 1];
    }
  }

  /** An interval followed by intervals all on its far side stays ordered. */
  lemma OrderedCons(x: Interval, rest: seq<Interval>, reverse: bool, lo: int, hi: int)
    requires lo <= x.start <= x.end <= hi
    requires Ordered(rest, reverse)
    requires reverse ==> Within(rest, lo, x.start)
    requires !reverse ==> Within(rest, x.end, hi)
    ensures Within([x] + rest, lo, hi) && Ordered([x] + rest, reverse)
  {
    var s := [x] + rest;
    forall i | 0 < i < |s|
      ensures s[i] == rest[i - 1]
    {
    }
    forall i, j | 0 <= i < j < |s|
      ensures Precedes(s[i], s[j], reverse)
    {
      if i > 0 {
        assert s[i] == rest[i - 1] && s[j] == rest[j - 1];
      }
    }
  }

  /** Filtering keeps a sequence inside its bounds and in order. */
  lemma {:induction false} KeepOrdered(s: seq<Interval>, keep: Interval -> bool, reverse: bool, lo: int, hi: int)
    requires Within(s, lo, hi) && Ordered(s, reverse)
    ensures Within(KeepIntervals(s, keep), lo, hi) && Ordered(KeepIntervals(s, keep), reverse)
    decreases |s|
  {
    if |s| > 0 {
      RestBeyondFirst(s, reverse, lo, hi);
      var rest := KeepIntervals(s[1..], keep);
      if reverse {
        KeepOrdered(s[1..], keep, reverse, lo, s[0].start);
      } else {
        KeepOrdered(s[1..], keep, reverse, s[0].end, hi);
      }
      if keep(s[0]) {
        OrderedCons(s[0], rest, reverse, lo, hi);
      } else {
        assert KeepIntervals(s, keep) == rest;
        WithinWiden(rest, reverse, lo, hi, s[0]);
      }
    }
  }

  lemma WithinWiden(s: seq<Interval>, reverse: bool, lo: int, hi: int, x: Interval)
    requires lo <= x.start <= x.end <= hi
    requires reverse ==> Within(s, lo, x.start)
    requires !reverse ==> Within(s, x.end, hi)
    ensures Within(s, lo, hi)
  {
  }

  /** Concatenating groups that each stay inside their own bound, with the bounds inside
      `[lo, hi]` and ordered, gives a sequence inside `[lo, hi]` in the same order. */
  lemma {:induction false} ConcatOrdered(groups: seq<seq<Interval>>, bounds: seq<Interval>, reverse: bool, lo: int, hi: int)
    requires |groups| == |bounds|
    requires Within(bounds, lo, hi) && Ordered(bounds, reverse)
    requires forall k :: 0 <= k < |groups| ==> Within(groups[k], bounds[k].start, bounds[k].end)
    requires forall k :: 0 <= k < |groups| ==> Ordered(groups[k], reverse)
    ensures Within(Flatten(groups), lo, hi) && Ordered(Flatten(groups), reverse)
    decreases |groups|
  {
    if |groups| > 0 {
      var b := bounds[0];
      RestBeyondFirst(bounds, reverse, lo, hi);
      assert forall k :: 0 <= k < |groups| - 1 ==> groups[1..][k] == groups[k + 1] && bounds[1..][k] == bounds[k + 1];
      var (lo', hi') := if reverse then (lo, b.start) else (b.end, hi);
      ConcatOrdered(groups[1..], bounds[1..], reverse, lo', hi');
      AppendOrdered(groups[0], Flatten(groups[1..]), reverse, lo, hi, b);
    }
  }

  /** A group inside bound `b` followed by intervals on the far side of `b`. */
  lemma AppendOrdered(a: seq<Interval>, rest: seq<Interval>, reverse: bool, lo: int, hi: int, b: Interval)
    requires lo <= b.start <= b.end <= hi
    requires Within(a, b.start, b.end) && Ordered(a, reverse)
    requires reverse ==> Within(rest, lo, b.start)
    requires !reverse ==> Within(rest, b.end, hi)
    requires Ordered(rest, reverse)
    ensures Within(a + rest, lo, hi) && Ordered(a + rest, reverse)
  {
    var s := a + rest;
    forall i | |a| <= i < |s|
      ensures s[i] == rest[i - |a|]
    {
    }
    forall i, j | 0 <= i < j < |s|
      ensures Precedes(s[i], s[j], reverse)
    {
      if j < |a| {
        assert s[i] == a[i] && s[j] == a[j];
      } else if i >= |a| {
        assert s[i] == rest[i - |a|] && s[j] == rest[j - |a|];
      } else {
        assert s[i] == a[i] && s[j] == rest[j - |a|];
      }
    }
  }
}
