/** Time windows and timestamp filtering (quant_tick/lib/aggregate.py, `filter_by_timestamp`),
    with the fact that filtering a sorted frame by a tiling of windows neither drops nor
    repeats a row. */
module Windows {
  import opened Common

  /** A half-open time window `[start, end)`. */
  datatype Interval = Interval(start: int, end: int)

  predicate InBounds(t: int, from: int, to: int, inclusive: bool)
  {
    from <= t && (if inclusive then t <= to else t < to)
  }

  /** The rows whose timestamp lies in `[from, to)`, or `[from, to]` when `inclusive`, in input order. */
  function FilterByTimestamp<T>(rows: seq<T>, ts: T -> int, from: int, to: int, inclusive: bool): seq<T>
    decreases |rows|
  {
    if |rows| == 0 then []
    else
      var rest := FilterByTimestamp(rows[1..], ts, from, to, inclusive);
      (if InBounds(ts(rows[0]), from, to, inclusive) then [rows[0]] else []) + rest
  }

  /** The filter keeps a subsequence: no more rows than it was given, each inside the bounds. */
  lemma {:induction false} FilterInBounds<T>(rows: seq<T>, ts: T -> int, from: int, to: int, inclusive: bool)
    ensures var r := FilterByTimestamp(rows, ts, from, to, inclusive);
      |r| <= |rows| && forall i :: 0 <= i < |r| ==> InBounds(ts(r[i]), from, to, inclusive)
    decreases |rows|
  {
    if |rows| > 0 {
      FilterInBounds(rows[1..], ts, from, to, inclusive);
    }
  }

  /** The filter keeps exactly the rows inside the bounds. */
  lemma {:induction false} FilterMembership<T>(rows: seq<T>, ts: T -> int, from: int, to: int, inclusive: bool, x: T)
    ensures x in FilterByTimestamp(rows, ts, from, to, inclusive) <==> x in rows && InBounds(ts(x), from, to, inclusive)
    decreases |rows|
  {
    if |rows| > 0 {
      FilterMembership(rows[1..], ts, from, to, inclusive, x);
      assert rows == [rows[0]] + rows[1..];
    }
  }

  lemma {:induction false} FilterAppend<T>(a: seq<T>, b: seq<T>, ts: T -> int, from: int, to: int, inclusive: bool)
    ensures FilterByTimestamp(a + b, ts, from, to, inclusive)
         == FilterByTimestamp(a, ts, from, to, inclusive) + FilterByTimestamp(b, ts, from, to, inclusive)
    decreases |a|
  {
    if |a| == 0 {
      assert a + b == b;
    } else {
      assert (a + b)[1..] == a[1..] + b;
      FilterAppend(a[1..], b, ts, from, to, inclusive);
      var head := if InBounds(ts(a[0]), from, to, inclusive) then [a[0]] else [];
      ConcatAssoc(head, FilterByTimestamp(a[1..], ts, from, to, inclusive), FilterByTimestamp(b, ts, from, to, inclusive));
    }
  }

  /** A filter that every row passes keeps the whole frame. */
  lemma {:induction false} FilterKeepsAll<T>(rows: seq<T>, ts: T -> int, from: int, to: int, inclusive: bool)
    requires forall i :: 0 <= i < |rows| ==> InBounds(ts(rows[i]), from, to, inclusive)
    ensures FilterByTimestamp(rows, ts, from, to, inclusive) == rows
    decreases |rows|
  {
    if |rows| > 0 {
      FilterKeepsAll(rows[1..], ts, from, to, inclusive);
    }
  }

  /** A filter that no row passes keeps nothing. */
  lemma {:induction false} FilterKeepsNone<T>(rows: seq<T>, ts: T -> int, from: int, to: int, inclusive: bool)
    requires forall i :: 0 <= i < |rows| ==> !InBounds(ts(rows[i]), from, to, inclusive)
    ensures FilterByTimestamp(rows, ts, from, to, inclusive) == []
    decreases |rows|
  {
    if |rows| > 0 {
      FilterKeepsNone(rows[1..], ts, from, to, inclusive);
    }
  }

  ghost predicate Sorted<T>(rows: seq<T>, ts: T -> int)
  {
    forall i, j :: 0 <= i < j < |rows| ==> ts(rows[i]) <= ts(rows[j])
  }

  /** Windows that follow each other without gap or overlap. */
  ghost predicate Tiling(chunks: seq<Interval>)
  {
    && (forall i :: 0 <= i < |chunks| ==> chunks[i].start <= chunks[i].end)
    && (forall i :: 0 < i < |chunks| ==> chunks[i - 1].end == chunks[i].start)
  }

  lemma {:induction false} TilingOrdered(chunks: seq<Interval>, i: int, j: int)
    requires Tiling(chunks)
    requires 0 <= i < j < |chunks|
    ensures chunks[i].end <= chunks[j].start
    decreases j - i
  {
    if j > i + 1 {
      TilingOrdered(chunks, i, j - 1);
    }
  }

  /** The rows each window selects, one group per window. */
  function ChunkRows<T>(rows: seq<T>, ts: T -> int, chunks: seq<Interval>): (groups: seq<seq<T>>)
    ensures |groups| == |chunks|
    decreases |chunks|
  {
    if |chunks| == 0 then []
    else [FilterByTimestamp(rows, ts, chunks[0].start, chunks[0].end, false)] + ChunkRows(rows, ts, chunks[1..])
  }

  /** Number of leading rows stamped before `t`. */
  function CountBefore<T>(rows: seq<T>, ts: T -> int, t: int): (k: nat)
    ensures k <= |rows|
    ensures forall i :: 0 <= i < k ==> ts(rows[i]) < t
    ensures Sorted(rows, ts) ==> forall i :: k <= i < |rows| ==> ts(rows[i]) >= t
    decreases |rows|
  {
    if |rows| == 0 || ts(rows[0]) >= t then 0
    else
      var k := CountBefore(rows[1..], ts, t);
      assert forall i :: 1 <= i < |rows| ==> rows[i] == rows[1..][i - 1];
      1 + k
  }

  /** Rows stamped before every window contribute to no window. */
  lemma {:induction false} DropEarlyRows<T>(rows: seq<T>, ts: T -> int, k: nat, chunks: seq<Interval>, bound: int)
    requires k <= |rows|
    requires forall i :: 0 <= i < k ==> ts(rows[i]) < bound
    requires forall j :: 0 <= j < |chunks| ==> bound <= chunks[j].start
    ensures ChunkRows(rows, ts, chunks) == ChunkRows(rows[k..], ts, chunks)
    decreases |chunks|
  {
    if |chunks| > 0 {
      var c := chunks[0];
      assert rows == rows[..k] + rows[k..];
      FilterAppend(rows[..k], rows[k..], ts, c.start, c.end, false);
      FilterKeepsNone(rows[..k], ts, c.start, c.end, false);
      assert FilterByTimestamp(rows, ts, c.start, c.end, false) == FilterByTimestamp(rows[k..], ts, c.start, c.end, false);
      DropEarlyRows(rows, ts, k, chunks[1..], bound);
      assert ChunkRows(rows, ts, chunks)
          == [FilterByTimestamp(rows, ts, c.start, c.end, false)] + ChunkRows(rows, ts, chunks[1..]);
    }
  }

  lemma SortedSuffix<T>(rows: seq<T>, ts: T -> int, k: int)
    requires Sorted(rows, ts) && 0 <= k <= |rows|
    ensures Sorted(rows[k..], ts)
  {
    var later := rows[k..];
    forall i, j | 0 <= i < j < |later|
      ensures ts(later[i]) <= ts(later[j])
    {
      assert later[i] == rows[k + i] && later[j] == rows[k + j];
    }
  }

  /** A window that holds the first `k` rows and ends before the others takes exactly those. */
  lemma {:induction false} FirstWindowRows<T>(rows: seq<T>, ts: T -> int, c: Interval, k: nat)
    requires k <= |rows|
    requires forall i :: 0 <= i < k ==> InBounds(ts(rows[i]), c.start, c.end, false)
    requires forall i :: k <= i < |rows| ==> c.end <= ts(rows[i])
    ensures FilterByTimestamp(rows, ts, c.start, c.end, false) == rows[..k]
    decreases k
  {
    if k == 0 {
      FilterKeepsNone(rows, ts, c.start, c.end, false);
    } else {
      var tail := rows[1..];
      assert forall i :: 0 <= i < |tail| ==> tail[i] == rows[i + 1];
      FirstWindowRows(tail, ts, c, k - 1);
      assert [rows[0]] + tail[..k - 1] == rows[..k];
    }
  }

  /** Every later window of a tiling starts at or after the first one's end. */
  lemma TilingTailAfter(chunks: seq<Interval>)
    requires Tiling(chunks) && |chunks| > 1
    ensures forall j :: 0 <= j < |chunks| - 1 ==> chunks[0].end <= chunks[1..][j].start
  {
    forall j | 0 <= j < |chunks| - 1
      ensures chunks[0].end <= chunks[1..][j].start
    {
      TilingOrdered(chunks, 0, j + 1);
    }
  }

  /** The first window of a tiling takes the rows stamped before its end; the rest of the
      tiling sees only the later rows. */
  lemma FirstChunk<T>(rows: seq<T>, ts: T -> int, chunks: seq<Interval>, k: nat)
    requires Sorted(rows, ts)
    requires Tiling(chunks) && |chunks| > 1
    requires forall i :: 0 <= i < |rows| ==> chunks[0].start <= ts(rows[i])
    requires k == CountBefore(rows, ts, chunks[0].end)
    ensures ChunkRows(rows, ts, chunks) == [rows[..k]] + ChunkRows(rows[k..], ts, chunks[1..])
  {
    FirstWindowRows(rows, ts, chunks[0], k);
    TilingTailAfter(chunks);
    DropEarlyRows(rows, ts, k, chunks[1..], chunks[0].end);
  }

  /** Cutting a sorted frame by a tiling that spans its timestamps gives the frame back:
      every row lands in exactly one window, in order. */
  lemma {:induction false} ChunksReassemble<T>(rows: seq<T>, ts: T -> int, chunks: seq<Interval>)
    requires Sorted(rows, ts)
    requires Tiling(chunks) && |chunks| > 0
    requires forall i :: 0 <= i < |rows| ==> chunks[0].start <= ts(rows[i]) < Last(chunks).end
    ensures Flatten(ChunkRows(rows, ts, chunks)) == rows
    decreases |chunks|
  {
    var c := chunks[0];
    if |chunks| == 1 {
      FilterKeepsAll(rows, ts, c.start, c.end, false);
      assert Flatten(ChunkRows(rows, ts, chunks)) == rows + Flatten(ChunkRows(rows, ts, chunks[1..]));
    } else {
      var k := CountBefore(rows, ts, c.end);
      var later := rows[k..];
      var tail := chunks[1..];
      FirstChunk(rows, ts, chunks, k);
      SortedSuffix(rows, ts, k);
      assert tail[0].start == c.end && Last(tail) == Last(chunks);
      forall i | 0 <= i < |later|
        ensures tail[0].start <= ts(later[i]) < Last(tail).end
      {
        assert later[i] == rows[k + i];
      }
      assert Tiling(tail);
      ChunksReassemble(later, ts, tail);
      assert Flatten([rows[..k]] + ChunkRows(later, ts, tail)) == rows[..k] + Flatten(ChunkRows(later, ts, tail));
      assert rows[..k] + later == rows;
    }
  }
}
