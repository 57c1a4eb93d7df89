/** Shared vocabulary: optional values, results, time units, and sums over sequences. */
module Common {

  /** A value that may be absent (Python's `None`). */
  datatype Option<+T> = None | Some(value: T)

  /** A computation that either succeeds or reports an error. */
  datatype Result<+R, +E> = Success(value: R) | Failure(error: E)

  /** Timestamps are integer seconds. */
  const Minute: int := 60
  const Hour: int := 3600
  const Day: int := 86400

  function Last<T>(xs: seq<T>): T
    requires |xs| > 0
  {
    xs[|xs| - 1]
  }

  lemma LastOfSlice<T>(xs: seq<T>, i: int, j: int)
    requires 0 <= i < j <= |xs|
    ensures Last(xs[i..j]) == xs[j - 1]
  {
  }

  /** Sum of `f` over the elements of `xs`, in order. */
  function Sum<T>(xs: seq<T>, f: T -> int): int
    decreases |xs|
  {
    if |xs| == 0 then 0 else f(xs[0]) + Sum(xs[1..], f)
  }

  /** Concatenation of a sequence of sequences. */
  function Flatten<T>(xss: seq<seq<T>>): seq<T>
    decreases |xss|
  {
    if |xss| == 0 then [] else xss[0] + Flatten(xss[1..])
  }

  lemma {:induction false} SumAppend<T>(a: seq<T>, b: seq<T>, f: T -> int)
    ensures Sum(a + b, f) == Sum(a, f) + Sum(b, f)
    decreases |a|
  {
    if |a| == 0 {
      assert a + b == b;
    } else {
      assert (a + b)[1..] == a[1..] + b;
      SumAppend(a[1..], b, f);
    }
  }

  lemma TailOfCons<T>(x: T, xs: seq<T>)
    ensures ([x] + xs)[0] == x && ([x] + xs)[1..] == xs
  {
  }

  lemma SliceOfSlice<T>(xs: seq<T>, a: int, b: int)
    requires 0 <= a <= b <= |xs|
    ensures xs[a..][..b - a] == xs[a..b] && xs[a..][b - a..] == xs[b..]
  {
  }

  lemma ConcatAssoc<T>(a: seq<T>, b: seq<T>, c: seq<T>)
    ensures a + (b + c) == (a + b) + c
  {
  }

  lemma {:induction false} FlattenAppend<T>(a: seq<seq<T>>, b: seq<seq<T>>)
    ensures Flatten(a + b) == Flatten(a) + Flatten(b)
    decreases |a|
  {
    if |a| == 0 {
      assert a + b == b;
    } else {
      assert (a + b)[1..] == a[1..] + b;
      FlattenAppend(a[1..], b);
      ConcatAssoc(a[0], Flatten(a[1..]), Flatten(b));
    }
  }

  lemma FlattenSnoc<T>(a: seq<seq<T>>, x: seq<T>)
    ensures Flatten(a + [x]) == Flatten(a) + x
  {
    FlattenAppend(a, [x]);
    assert Flatten([x]) == x + Flatten([x][1..]);
  }

  /** An element of a concatenation belongs to one of the concatenated sequences, and back. */
  lemma {:induction false} FlattenMembership<T>(xss: seq<seq<T>>, x: T)
    ensures x in Flatten(xss) <==> exists i :: 0 <= i < |xss| && x in xss[i]
    decreases |xss|
  {
    if |xss| > 0 {
      FlattenMembership(xss[1..], x);
      if x in Flatten(xss[1..]) {
        var i :| 0 <= i < |xss[1..]| && x in xss[1..][i];
        assert xss[i + 1] == xss[1..][i];
      }
      if i :| 0 < i < |xss| && x in xss[i] {
        assert xss[1..][i - 1] == xss[i];
      }
    }
  }

  lemma {:induction false} FlattenMember<T>(xss: seq<seq<T>>, i: int, j: int)
    requires 0 <= i < |xss| && 0 <= j < |xss[i]|
    ensures xss[i][j] in Flatten(xss)
    decreases i
  {
    assert Flatten(xss) == xss[0] + Flatten(xss[1..]);
    if i > 0 {
      FlattenMember(xss[1..], i - 1, j);
    }
  }

  /** Conservation through grouping: when every output carries, under `g`, the sum under `f`
      of its own group, the outputs carry in total the sum of `f` over all grouped inputs. */
  lemma {:induction false} SumOverGroups<T, U>(ys: seq<U>, g: U -> int, xss: seq<seq<T>>, f: T -> int)
    requires |ys| == |xss|
    requires forall i :: 0 <= i < |ys| ==> g(ys[i]) == Sum(xss[i], f)
    ensures Sum(ys, g) == Sum(Flatten(xss), f)
    decreases |ys|
  {
    if |ys| > 0 {
      SumOverGroups(ys[1..], g, xss[1..], f);
      SumAppend(xss[0], Flatten(xss[1..]), f);
    }
  }
}
