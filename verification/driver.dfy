/** The `aggregate_candles` driver (quant_candles/controllers/iterators.py): for every interval
    the candle-cache iterator yields, in order, read the trades, load the cache, aggregate, and
    write the cache and the candles back, threading the cache from one interval to the next. */
module Driver {
  import opened Common
  import opened Windows
  import opened Intervals
  import opened Iterators

  /** The candle's operations whose code is not part of this model. `C` is the cache (the
      pair `cache_data`, `cache_data_frame`), `F` a trade data frame and `D` aggregated candles. */
  datatype CandleOps<!C, !F, D> = CandleOps(
    getDataFrame: (int, int) -> F,
    getCache: (int, C) -> C,
    aggregate: (int, int, F, C) -> (D, C))

  /** What `candle.initialize` returns: the range to iterate and the starting cache. */
  datatype Initial<C> = Initial(minFrom: int, maxTo: int, cache: C)

  /** One call the driver makes on the candle, with the arguments it passes. */
  datatype Call<C, F, D> =
    | GetDataFrame(from: int, to: int)
    | GetCache(from: int, cache: C)
    | Aggregate(from: int, to: int, frame: F, cache: C)
    | WriteCache(from: int, to: int, cache: C)
    | WriteData(from: int, to: int, data: D)

  /** The cache the iteration for `p` hands on when it starts from `cache`. */
  function After<C, F, D>(ops: CandleOps<C, F, D>, p: Interval, cache: C): C
  {
    var frame := ops.getDataFrame(p.start, p.end);
    ops.aggregate(p.start, p.end, frame, ops.getCache(p.start, cache)).1
  }

  /** The candles the iteration for `p` produces when it starts from `cache`. */
  function Produced<C, F, D>(ops: CandleOps<C, F, D>, p: Interval, cache: C): D
  {
    var frame := ops.getDataFrame(p.start, p.end);
    ops.aggregate(p.start, p.end, frame, ops.getCache(p.start, cache)).0
  }

  /** The five calls of one loop iteration. */
  function Block<C, F, D>(ops: CandleOps<C, F, D>, p: Interval, cache: C): seq<Call<C, F, D>>
  {
    var frame := ops.getDataFrame(p.start, p.end);
    var loaded := ops.getCache(p.start, cache);
    var (data, updated) := ops.aggregate(p.start, p.end, frame, loaded);
    [GetDataFrame(p.start, p.end), GetCache(p.start, cache), Aggregate(p.start, p.end, frame, loaded),
     WriteCache(p.start, p.end, updated), WriteData(p.start, p.end, data)]
  }

  /** The loop of `aggregate_candles` over `pairs`, starting from `cache`, as its call trace. */
  function Run<C, F, D>(ops: CandleOps<C, F, D>, pairs: seq<Interval>, cache: C): seq<Call<C, F, D>>
    decreases |pairs|
  {
    if |pairs| == 0 then [] else Block(ops, pairs[0], cache) + Run(ops, pairs[1..], After(ops, pairs[0], cache))
  }

  /** The cache in hand before pair `k`: the starting cache, advanced through the first `k` pairs. */
  function CacheAt<C, F, D>(ops: CandleOps<C, F, D>, pairs: seq<Interval>, init: C, k: nat): C
    requires k <= |pairs|
    decreases k
  {
    if k == 0 then init else After(ops, pairs[k - 1], CacheAt(ops, pairs, init, k - 1))
  }

  lemma {:induction false} CacheAtShift<C, F, D>(ops: CandleOps<C, F, D>, pairs: seq<Interval>, init: C, k: nat)
    requires 0 < k <= |pairs|
    ensures CacheAt(ops, pairs, init, k) == CacheAt(ops, pairs[1..], After(ops, pairs[0], init), k - 1)
    decreases k
  {
    if k > 1 {
      CacheAtShift(ops, pairs, init, k - 1);
      assert pairs[1..][k - 2] == pairs[k - 1];
    }
  }

  /** Block `k` of the trace is the five calls for pair `k`, started from the cache in hand. */
  ghost predicate BlocksMatch<C, F, D>(ops: CandleOps<C, F, D>, pairs: seq<Interval>, init: C, trace: seq<Call<C, F, D>>)
  {
    && |trace| == 5 * |pairs|
    && forall k :: 0 <= k < |pairs| ==> trace[5 * k..5 * k + 5] == Block(ops, pairs[k], CacheAt(ops, pairs, init, k))
  }

  lemma BlocksStep<C, F, D>(ops: CandleOps<C, F, D>, pairs: seq<Interval>, init: C, trace: seq<Call<C, F, D>>)
    requires |pairs| > 0
    requires trace == Block(ops, pairs[0], init) + Run(ops, pairs[1..], After(ops, pairs[0], init))
    requires BlocksMatch(ops, pairs[1..], After(ops, pairs[0], init), Run(ops, pairs[1..], After(ops, pairs[0], init)))
    ensures BlocksMatch(ops, pairs, init, trace)
  {
    var next := After(ops, pairs[0], init);
    var rest := Run(ops, pairs[1..], next);
    forall k | 0 <= k < |pairs|
      ensures trace[5 * k..5 * k + 5] == Block(ops, pairs[k], CacheAt(ops, pairs, init, k))
    {
      if k > 0 {
        CacheAtShift(ops, pairs, init, k);
        assert pairs[1..][k - 1] == pairs[k];
        assert trace[5 * k..5 * k + 5] == rest[5 * (k - 1)..5 * (k - 1) + 5];
      }
    }
  }

  /** The trace is one block of five calls per pair, in order, each started from the cache the
      previous pairs left behind. */
  lemma {:induction false} RunBlocks<C, F, D>(ops: CandleOps<C, F, D>, pairs: seq<Interval>, init: C)
    ensures BlocksMatch(ops, pairs, init, Run(ops, pairs, init))
    decreases |pairs|
  {
    if |pairs| > 0 {
      RunBlocks(ops, pairs[1..], After(ops, pairs[0], init));
      BlocksStep(ops, pairs, init, Run(ops, pairs, init));
    }
  }

  /** The five calls of one iteration, one by one. */
  lemma BlockCalls<C, F, D>(ops: CandleOps<C, F, D>, p: Interval, cache: C, b: seq<Call<C, F, D>>)
    requires b == Block(ops, p, cache)
    ensures |b| == 5
    ensures b[0] == GetDataFrame(p.start, p.end)
    ensures b[1] == GetCache(p.start, cache)
    ensures b[2] == Aggregate(p.start, p.end, ops.getDataFrame(p.start, p.end), ops.getCache(p.start, cache))
    ensures b[3] == WriteCache(p.start, p.end, After(ops, p, cache))
    ensures b[4] == WriteData(p.start, p.end, Produced(ops, p, cache))
  {
  }

  lemma SliceAt<T>(xs: seq<T>, i: int, j: int, m: int)
    requires 0 <= i <= i + m < j <= |xs|
    ensures xs[i..j][m] == xs[i + m]
  {
  }

  /** The calls of iteration `k` of the trace. */
  lemma TraceAt<C, F, D>(ops: CandleOps<C, F, D>, pairs: seq<Interval>, init: C, trace: seq<Call<C, F, D>>, k: int)
    requires BlocksMatch(ops, pairs, init, trace) && 0 <= k < |pairs|
    ensures trace[5 * k] == GetDataFrame(pairs[k].start, pairs[k].end)
    ensures trace[5 * k + 1] == GetCache(pairs[k].start, CacheAt(ops, pairs, init, k))
    ensures trace[5 * k + 2] == Aggregate(pairs[k].start, pairs[k].end, ops.getDataFrame(pairs[k].start, pairs[k].end),
                                          ops.getCache(pairs[k].start, CacheAt(ops, pairs, init, k)))
    ensures trace[5 * k + 3] == WriteCache(pairs[k].start, pairs[k].end, CacheAt(ops, pairs, init, k + 1))
    ensures trace[5 * k + 4] == WriteData(pairs[k].start, pairs[k].end, Produced(ops, pairs[k], CacheAt(ops, pairs, init, k)))
  {
    var b := trace[5 * k..5 * k + 5];
    BlockCalls(ops, pairs[k], CacheAt(ops, pairs, init, k), b);
    SliceAt(trace, 5 * k, 5 * k + 5, 0);
    SliceAt(trace, 5 * k, 5 * k + 5, 1);
    SliceAt(trace, 5 * k, 5 * k + 5, 2);
    SliceAt(trace, 5 * k, 5 * k + 5, 3);
    SliceAt(trace, 5 * k, 5 * k + 5, 4);
  }

  /** For every pair, in order, the driver calls `get_data_frame`, `get_cache`, `aggregate`,
      `write_cache` and `write_data` once each on that pair; `aggregate` gets the frame just read
      and the cache just loaded; the first `get_cache` gets the initial cache, and each later one
      gets the cache the previous iteration wrote (`CacheAt(k + 1)` is written by iteration `k`
      and loaded by iteration `k + 1`). */
  lemma RunTrace<C, F, D>(ops: CandleOps<C, F, D>, pairs: seq<Interval>, init: C)
    ensures var trace := Run(ops, pairs, init);
      && |trace| == 5 * |pairs|
      && (forall k :: 0 <= k < |pairs| ==>
            && trace[5 * k] == GetDataFrame(pairs[k].start, pairs[k].end)
            && trace[5 * k + 1] == GetCache(pairs[k].start, CacheAt(ops, pairs, init, k))
            && trace[5 * k + 2] == Aggregate(pairs[k].start, pairs[k].end, ops.getDataFrame(pairs[k].start, pairs[k].end),
                                              ops.getCache(pairs[k].start, CacheAt(ops, pairs, init, k)))
            && trace[5 * k + 3] == WriteCache(pairs[k].start, pairs[k].end, CacheAt(ops, pairs, init, k + 1))
            && trace[5 * k + 4] == WriteData(pairs[k].start, pairs[k].end, Produced(ops, pairs[k], CacheAt(ops, pairs, init, k))))
      && (|pairs| > 0 ==> trace[1] == GetCache(pairs[0].start, init))
  {
    var trace := Run(ops, pairs, init);
    RunBlocks(ops, pairs, init);
    forall k | 0 <= k < |pairs|
      ensures trace[5 * k] == GetDataFrame(pairs[k].start, pairs[k].end)
      ensures trace[5 * k + 1] == GetCache(pairs[k].start, CacheAt(ops, pairs, init, k))
      ensures trace[5 * k + 2] == Aggregate(pairs[k].start, pairs[k].end, ops.getDataFrame(pairs[k].start, pairs[k].end),
                                            ops.getCache(pairs[k].start, CacheAt(ops, pairs, init, k)))
      ensures trace[5 * k + 3] == WriteCache(pairs[k].start, pairs[k].end, CacheAt(ops, pairs, init, k + 1))
      ensures trace[5 * k + 4] == WriteData(pairs[k].start, pairs[k].end, Produced(ops, pairs[k], CacheAt(ops, pairs, init, k)))
    {
      TraceAt(ops, pairs, init, trace, k);
    }
    if |pairs| > 0 {
      TraceAt(ops, pairs, init, trace, 0);
    }
  }

  /** `aggregate_candles`: the trace of calls the driver makes on the candle. `initialize` is
      `candle.initialize`, and the candle-cache iterator runs over the candle's cache catalogue
      with `can_iter` the candle's `can_aggregate`. */
  function AggregateCandles<C, F, D>(cal: Calendar, ops: CandleOps<C, F, D>,
                                     initialize: (int, int, int, bool) -> Initial<C>,
                                     caches: seq<CacheRecord>, isLocal: bool, canAggregate: (int, int) -> bool,
                                     now: int, from: int, to: int, step: int, retry: bool): seq<Call<C, F, D>>
  {
    var initial := initialize(from, to, step, retry);
    var pairs := IterAll(cal, CandleCacheIterator(caches, isLocal, canAggregate), now, initial.minFrom, initial.maxTo, step, retry);
    Run(ops, pairs, initial.cache)
  }

  /** With a well-behaved calendar, the driver reads trades for intervals inside the initialised
      range, from past to present and without overlap. */
  lemma AggregateCandlesForward<C, F, D>(cal: Calendar, ops: CandleOps<C, F, D>,
                                         initialize: (int, int, int, bool) -> Initial<C>,
                                         caches: seq<CacheRecord>, isLocal: bool, canAggregate: (int, int) -> bool,
                                         now: int, from: int, to: int, step: int, retry: bool)
    requires WellBehaved(cal)
    ensures var trace := AggregateCandles(cal, ops, initialize, caches, isLocal, canAggregate, now, from, to, step, retry);
      var initial := initialize(from, to, step, retry);
      && |trace| % 5 == 0
      && (forall k :: 0 <= k < |trace| / 5 ==>
            trace[5 * k].GetDataFrame? && initial.minFrom <= trace[5 * k].from <= trace[5 * k].to <= initial.maxTo)
      && (forall k, l :: 0 <= k < l < |trace| / 5 ==> trace[5 * k].to <= trace[5 * l].from)
  {
    var initial := initialize(from, to, step, retry);
    var v := CandleCacheIterator(caches, isLocal, canAggregate);
    var pairs := IterAll(cal, v, now, initial.minFrom, initial.maxTo, step, retry);
    IterAllOrdered(cal, v, now, initial.minFrom, initial.maxTo, step, retry);
    RunTrace(ops, pairs, initial.cache);
  }
}
