/** Decomposition of a sequence into maximal runs of consecutive elements that share a key.
    Both trade aggregation (same instant and side) and clustering (same side) are instances. */
module Runs {
  import opened Common

  /** A run: non-empty, every element has the key of the first. */
  ghost predicate Uniform<T, K>(run: seq<T>, key: T -> K)
  {
    |run| > 0 && forall i :: 0 <= i < |run| ==> key(run[i]) == key(run[0])
  }

  /** `runs` cuts `xs` into runs, and two neighbouring runs never share a key (maximality). */
  ghost predicate IsRunDecomposition<T, K>(xs: seq<T>, runs: seq<seq<T>>, key: T -> K)
  {
    && Flatten(runs) == xs
    && (forall i :: 0 <= i < |runs| ==> Uniform(runs[i], key))
    && (forall i :: 0 < i < |runs| ==> key(runs[i - 1][0]) != key(runs[i][0]))
  }

  /** Length of the longest prefix of `xs` whose elements all have the key of `xs[0]`. */
  function RunLength<T, K(==)>(xs: seq<T>, key: T -> K): (n: nat)
    ensures |xs| == 0 ==> n == 0
    ensures |xs| > 0 ==> 1 <= n <= |xs|
    ensures forall i :: 0 <= i < n ==> key(xs[i]) == key(xs[0])
    ensures n < |xs| ==> key(xs[n]) != key(xs[0])
    decreases |xs|
  {
    if |xs| <= 1 then |xs|
    else if key(xs[1]) == key(xs[0]) then
      var m := RunLength(xs[1..], key);
      assert forall i :: 1 <= i < 1 + m ==> key(xs[i]) == key(xs[1..][i - 1]);
      1 + m
    else 1
  }

  /** The maximal runs of `xs`, in order. */
  function Split<T, K(==)>(xs: seq<T>, key: T -> K): (runs: seq<seq<T>>)
    ensures forall i :: 0 <= i < |runs| ==> |runs[i]| > 0
    decreases |xs|
  {
    if |xs| == 0 then []
    else
      var n := RunLength(xs, key);
      var rest := Split(xs[n..], key);
      assert forall i :: 1 <= i < 1 + |rest| ==> ([xs[..n]] + rest)[i] == rest[i - 1];
      [xs[..n]] + rest
  }

  /** A run in front of a decomposition whose first element has another key. */
  lemma ConsDecomposition<T, K>(run: seq<T>, ys: seq<T>, rest: seq<seq<T>>, key: T -> K)
    requires Uniform(run, key) && IsRunDecomposition(ys, rest, key)
    requires |ys| > 0 ==> key(ys[0]) != key(run[0])
    ensures IsRunDecomposition(run + ys, [run] + rest, key)
  {
    var runs := [run] + rest;
    assert runs[1..] == rest;
    assert Flatten(runs) == run + Flatten(rest);
    if |rest| > 0 {
      assert Flatten(rest) == rest[0] + Flatten(rest[1..]);
      assert rest[0][0] == ys[0];
    }
    forall i | 0 < i < |runs|
      ensures key(runs[i - 1][0]) != key(runs[i][0])
    {
      if i > 1 {
        assert runs[i - 1] == rest[i - 2] && runs[i] == rest[i - 1];
      }
    }
  }

  /** `Split` cuts `xs` into maximal runs. */
  lemma {:induction false} SplitIsDecomposition<T, K>(xs: seq<T>, key: T -> K)
    ensures IsRunDecomposition(xs, Split(xs, key), key)
    decreases |xs|
  {
    if |xs| > 0 {
      var n := RunLength(xs, key);
      SplitIsDecomposition(xs[n..], key);
      assert n < |xs| ==> xs[n..][0] == xs[n];
      assert Uniform(xs[..n], key);
      ConsDecomposition(xs[..n], xs[n..], Split(xs[n..], key), key);
      assert xs[..n] + xs[n..] == xs;
    }
  }

  /** The decomposition into maximal runs is unique: any cut satisfying the run conditions is `Split`. */
  lemma {:induction false} DecompositionUnique<T, K>(xs: seq<T>, runs: seq<seq<T>>, key: T -> K)
    requires IsRunDecomposition(xs, runs, key)
    ensures runs == Split(xs, key)
    decreases |runs|
  {
    if |runs| == 0 {
      assert xs == [];
    } else {
      var a := runs[0];
      var rest := runs[1..];
      assert Flatten(runs) == a + Flatten(rest);
      assert xs[..|a|] == a;
      assert xs[|a|..] == Flatten(rest);
      assert forall i :: 0 <= i < |a| ==> key(xs[i]) == key(xs[0]);
      if |rest| > 0 {
        assert key(runs[0][0]) != key(runs[1][0]);
        assert Flatten(rest) == rest[0] + Flatten(rest[1..]);
        assert xs[|a|] == rest[0][0];
      }
      var n := RunLength(xs, key);
      assert n == |a|;
      assert IsRunDecomposition(Flatten(rest), rest, key) by {
        forall i | 0 < i < |rest|
          ensures key(rest[i - 1][0]) != key(rest[i][0])
        {
          assert rest[i - 1] == runs[i] && rest[i] == runs[i + 1];
        }
      }
      DecompositionUnique(Flatten(rest), rest, key);
    }
  }

  /** A prefix of one key, followed by a different key or by nothing, is the first run. */
  lemma SplitFirstRun<T, K>(xs: seq<T>, key: T -> K, m: int)
    requires 0 < m <= |xs|
    requires forall i :: 0 <= i < m ==> key(xs[i]) == key(xs[0])
    requires m < |xs| ==> key(xs[m]) != key(xs[0])
    ensures Split(xs, key) == [xs[..m]] + Split(xs[m..], key)
  {
    var n := RunLength(xs, key);
    assert n == m;
  }

  /** A run `xs[start..index]` of one key, followed by another key or by the end, is the first
      run of `xs[start..]`. */
  lemma SplitRunAt<T, K>(xs: seq<T>, key: T -> K, start: int, index: int)
    requires SameKey(xs, key, start, index)
    requires index < |xs| ==> key(xs[index]) != key(xs[start])
    ensures Split(xs[start..], key) == [xs[start..index]] + Split(xs[index..], key)
  {
    RunPrefix(xs, key, start, index);
    SplitFirstRun(xs[start..], key, index - start);
    SliceOfSlice(xs, start, index);
  }

  /** The same run seen from `xs[start..]`: a prefix of one key, then another key or the end. */
  lemma RunPrefix<T, K>(xs: seq<T>, key: T -> K, start: int, index: int)
    requires SameKey(xs, key, start, index)
    requires index < |xs| ==> key(xs[index]) != key(xs[start])
    ensures var ys, m := xs[start..], index - start;
      && 0 < m <= |ys|
      && (forall i :: 0 <= i < m ==> key(ys[i]) == key(ys[0]))
      && (m < |ys| ==> key(ys[m]) != key(ys[0]))
  {
    var ys := xs[start..];
    var m := index - start;
    forall i | 0 <= i < m
      ensures key(ys[i]) == key(ys[0])
    {
      assert ys[i] == xs[start + i] && ys[0] == xs[start];
    }
    if m < |ys| {
      assert ys[m] == xs[index] && ys[0] == xs[start];
    }
  }

  /** Elements `start .. index` share the key of element `start`. */
  ghost predicate SameKey<T, K>(xs: seq<T>, key: T -> K, start: int, index: int)
  {
    && 0 <= start < index <= |xs|
    && forall j :: start <= j < index ==> key(xs[j]) == key(xs[start])
  }

  /** The runs a left-to-right scan still emits when the open run is `xs[start..index]` and each
      element is compared with the open run's key. */
  function ScanRuns<T, K(==)>(xs: seq<T>, key: T -> K, start: int, index: int): seq<seq<T>>
    requires 0 <= start < index <= |xs|
    decreases |xs| - index
  {
    if index == |xs| then [xs[start..]]
    else if key(xs[index]) == key(xs[start]) then ScanRuns(xs, key, start, index + 1)
    else [xs[start..index]] + ScanRuns(xs, key, index, index + 1)
  }

  /** An open run of one key that reaches the end is the only remaining run. */
  lemma WholeRun<T, K>(xs: seq<T>, key: T -> K, start: int)
    requires SameKey(xs, key, start, |xs|)
    ensures Split(xs[start..], key) == [xs[start..]]
  {
    SplitRunAt(xs, key, start, |xs|);
    assert xs[|xs|..] == [] && xs[start..|xs|] == xs[start..];
  }

  /** An element with the open run's key extends it. */
  lemma SkipRunStep<T, K>(xs: seq<T>, key: T -> K, start: int, index: int)
    requires SameKey(xs, key, start, index) && index < |xs|
    requires key(xs[index]) == key(xs[start])
    ensures SameKey(xs, key, start, index + 1)
    ensures ScanRuns(xs, key, start, index) == ScanRuns(xs, key, start, index + 1)
  {
  }

  /** An element with another key closes the open run, which is the first remaining run. */
  lemma CloseRunStep<T, K>(xs: seq<T>, key: T -> K, start: int, index: int)
    requires SameKey(xs, key, start, index) && index < |xs|
    requires key(xs[index]) != key(xs[start])
    requires ScanRuns(xs, key, index, index + 1) == Split(xs[index..], key)
    ensures ScanRuns(xs, key, start, index) == Split(xs[start..], key)
  {
    SplitRunAt(xs, key, start, index);
  }

  /** The start of the open run after the scan inspects element `index`. */
  function NextStart<T, K(==)>(xs: seq<T>, key: T -> K, start: int, index: int): int
    requires 0 <= start < index < |xs|
  {
    if key(xs[index]) == key(xs[start]) then start else index
  }

  /** One scan step keeps the open run of one key, and the emitted runs are the maximal runs
      when those emitted from the next state are. */
  lemma ScanStep<T, K>(xs: seq<T>, key: T -> K, start: int, index: int)
    requires SameKey(xs, key, start, index) && index < |xs|
    ensures SameKey(xs, key, NextStart(xs, key, start, index), index + 1)
    ensures ScanRuns(xs, key, NextStart(xs, key, start, index), index + 1) == Split(xs[NextStart(xs, key, start, index)..], key)
            ==> ScanRuns(xs, key, start, index) == Split(xs[start..], key)
  {
    if key(xs[index]) == key(xs[start]) {
      SkipRunStep(xs, key, start, index);
    } else {
      if ScanRuns(xs, key, index, index + 1) == Split(xs[index..], key) {
        CloseRunStep(xs, key, start, index);
      }
    }
  }

  /** The scan emits the maximal runs of the elements from `start` on. */
  lemma {:induction false} ScanRunsSplit<T, K>(xs: seq<T>, key: T -> K, start: int, index: int)
    requires SameKey(xs, key, start, index)
    ensures ScanRuns(xs, key, start, index) == Split(xs[start..], key)
    decreases |xs| - index
  {
    if index == |xs| {
      WholeRun(xs, key, start);
    } else {
      ScanStep(xs, key, start, index);
      ScanRunsSplit(xs, key, NextStart(xs, key, start, index), index + 1);
    }
  }
}
