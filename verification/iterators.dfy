/** The gap-aware time-frame iterators (quant_candles/controllers/iterators.py): coarse chunks
    without data are refined into hours, and each hour into its missing intervals. */
module Iterators {
  import opened Common
  import opened Windows
  import opened Intervals

  /** The catalogued frequencies, as codes in minutes. */
  datatype Frequency = OneMinute | OneHour | OneDay

  function FrequencyCode(f: Frequency): int
  {
    match f
    case OneMinute => 1
    case OneHour => 60
    case OneDay => 1440
  }

  /** A `(timestamp, frequency)` pair as the catalogue queries select it. */
  datatype Catalogued = Catalogued(timestamp: int, frequency: int)

  /** A stored trade-data record; `ok` may be unset. */
  datatype TradeRecord = TradeRecord(timestamp: int, frequency: Frequency, ok: Option<bool>)

  /** A stored candle-cache record. */
  datatype CacheRecord = CacheRecord(timestamp: int, frequency: Frequency)

  /** The calendar helpers the iterators call but whose code is not part of this model:
      `iter_timeframe(from, to, step, reverse)`, `has_timestamps(from, to, existing)`,
      `iter_missing(from, to, existing, reverse)` and `get_existing(values)`. */
  datatype Calendar = Calendar(
    iterTimeframe: (int, int, int, bool) -> seq<Interval>,
    hasTimestamps: (int, int, seq<int>) -> bool,
    iterMissing: (int, int, seq<int>, bool) -> seq<Interval>,
    getExisting: seq<Catalogued> -> seq<int>)

  /** The two iterators: trade data (present to past) over its stored records, and candle
      caches (past to present) over the cache catalogue, with the deployment's `IS_LOCAL`
      flag and the candle's `can_aggregate`. */
  datatype Variant =
    | TradeDataIterator(records: seq<TradeRecord>)
    | CandleCacheIterator(caches: seq<CacheRecord>, isLocal: bool, canAggregate: (int, int) -> bool)

  /** The direction flag each variant passes to every calendar helper. */
  function Reverse(v: Variant): bool
  {
    v.TradeDataIterator?
  }

  function TradeTime(r: TradeRecord): int
  {
    r.timestamp
  }

  function CacheTime(r: CacheRecord): int
  {
    r.timestamp
  }

  /** `exclude(ok=False)`: drops the records marked as failed, keeps the unset ones. */
  function NotFailed(records: seq<TradeRecord>): seq<TradeRecord>
    decreases |records|
  {
    if |records| == 0 then []
    else (if records[0].ok == Some(false) then [] else [records[0]]) + NotFailed(records[1..])
  }

  /** The trade-data records `TradeDataIterator.get_existing` selects for `[from, to)`. */
  function TradeRecordsFor(records: seq<TradeRecord>, from: int, to: int, retry: bool): seq<TradeRecord>
  {
    var inRange := FilterByTimestamp(records, TradeTime, from, to, false);
    if retry then NotFailed(inRange) else inRange
  }

  lemma {:induction false} NotFailedMembership(records: seq<TradeRecord>, r: TradeRecord)
    ensures r in NotFailed(records) <==> r in records && r.ok != Some(false)
    decreases |records|
  {
    if |records| > 0 {
      NotFailedMembership(records[1..], r);
      assert records == [records[0]] + records[1..];
    }
  }

  /** A record counts as existing exactly when it lies in the window and, on a retry, is not
      marked as failed: failed intervals are redone on a retry. */
  lemma TradeRecordsForMembership(records: seq<TradeRecord>, from: int, to: int, retry: bool, r: TradeRecord)
    ensures r in TradeRecordsFor(records, from, to, retry)
        <==> r in records && from <= r.timestamp < to && (retry ==> r.ok != Some(false))
  {
    FilterMembership(records, TradeTime, from, to, false, r);
    NotFailedMembership(FilterByTimestamp(records, TradeTime, from, to, false), r);
  }

  function TradeCatalog(records: seq<TradeRecord>): seq<Catalogued>
  {
    seq(|records|, i requires 0 <= i < |records| => Catalogued(records[i].timestamp, FrequencyCode(records[i].frequency)))
  }

  function CacheCatalog(caches: seq<CacheRecord>): seq<Catalogued>
  {
    seq(|caches|, i requires 0 <= i < |caches| => Catalogued(caches[i].timestamp, FrequencyCode(caches[i].frequency)))
  }

  /** `get_existing` of each variant for the window `[from, to)`. */
  function GetExisting(cal: Calendar, v: Variant, from: int, to: int, retry: bool): seq<int>
  {
    match v
    case TradeDataIterator(records) => cal.getExisting(TradeCatalog(TradeRecordsFor(records, from, to, retry)))
    case CandleCacheIterator(caches, isLocal, _) =>
      if isLocal && retry then []
      else cal.getExisting(CacheCatalog(FilterByTimestamp(caches, CacheTime, from, to, false)))
  }

  /** What a retry does to the existing list: a local candle-cache retry reports nothing as
      existing, any other candle-cache call reports the catalogue of the window, and a
      trade-data call reports the records `TradeRecordsFor` selects. */
  lemma RetryExisting(cal: Calendar, v: Variant, from: int, to: int, retry: bool)
    ensures v.CandleCacheIterator? && v.isLocal && retry ==> GetExisting(cal, v, from, to, retry) == []
    ensures v.CandleCacheIterator? && !(v.isLocal && retry) ==>
      GetExisting(cal, v, from, to, retry) == cal.getExisting(CacheCatalog(FilterByTimestamp(v.caches, CacheTime, from, to, false)))
    ensures v.TradeDataIterator? ==>
      GetExisting(cal, v, from, to, retry) == cal.getExisting(TradeCatalog(TradeRecordsFor(v.records, from, to, retry)))
  {
  }

  /** `can_iter`: always true for trade data, the candle's `can_aggregate` for candle caches. */
  function CanIter(v: Variant, from: int, to: int): bool
  {
    match v
    case TradeDataIterator(_) => true
    case CandleCacheIterator(_, _, canAggregate) => canAggregate(from, to)
  }

  /** A coarse chunk is iterated when it has no data yet and the variant can iterate it. */
  function Admissible(cal: Calendar, v: Variant, retry: bool, c: Interval): bool
  {
    !cal.hasTimestamps(c.start, c.end, GetExisting(cal, v, c.start, c.end, retry)) && CanIter(v, c.start, c.end)
  }

  function AdmissibleOf(cal: Calendar, v: Variant, retry: bool): Interval -> bool
  {
    (c: Interval) => Admissible(cal, v, retry, c)
  }

  /** A chunk `iter_range` yields: its window and the existing timestamps inside it. */
  datatype Chunk = Chunk(window: Interval, existing: seq<int>)

  function RangeWindows(cal: Calendar, v: Variant, from: int, to: int, step: int, retry: bool): seq<Interval>
  {
    KeepIntervals(cal.iterTimeframe(from, to, step, Reverse(v)), AdmissibleOf(cal, v, retry))
  }

  /** Every window `RangeWindows` keeps is a window of the time frame that can be iterated. */
  lemma RangeWindowsAdmissible(cal: Calendar, v: Variant, from: int, to: int, step: int, retry: bool)
    ensures var ws := RangeWindows(cal, v, from, to, step, retry);
      forall i :: 0 <= i < |ws| ==> ws[i] in cal.iterTimeframe(from, to, step, Reverse(v)) && Admissible(cal, v, retry, ws[i])
  {
    var ws := RangeWindows(cal, v, from, to, step, retry);
    forall i | 0 <= i < |ws|
      ensures ws[i] in cal.iterTimeframe(from, to, step, Reverse(v)) && Admissible(cal, v, retry, ws[i])
    {
      KeepMembership(cal.iterTimeframe(from, to, step, Reverse(v)), AdmissibleOf(cal, v, retry), ws[i]);
    }
  }

  /** `iter_range`: the windows of the time frame that have no data yet and that the variant
      can iterate, in the time frame's order, each with its existing timestamps
      (`IterRangeMembership` gives the converse: every such window is yielded). */
  function IterRange(cal: Calendar, v: Variant, from: int, to: int, step: int, retry: bool): (chunks: seq<Chunk>)
    ensures forall i :: 0 <= i < |chunks| ==>
      && chunks[i].window in cal.iterTimeframe(from, to, step, Reverse(v))
      && !cal.hasTimestamps(chunks[i].window.start, chunks[i].window.end, chunks[i].existing)
      && CanIter(v, chunks[i].window.start, chunks[i].window.end)
  {
    var ws := RangeWindows(cal, v, from, to, step, retry);
    RangeWindowsAdmissible(cal, v, from, to, step, retry);
    seq(|ws|, i requires 0 <= i < |ws| => Chunk(ws[i], GetExisting(cal, v, ws[i].start, ws[i].end, retry)))
  }

  /** A window of the time frame is yielded exactly when it has no data and can be iterated;
      for trade data that is when it has no data, for candle caches when, moreover, the candle
      can aggregate it. */
  lemma IterRangeMembership(cal: Calendar, v: Variant, from: int, to: int, step: int, retry: bool, c: Interval)
    ensures c in RangeWindows(cal, v, from, to, step, retry)
        <==> && c in cal.iterTimeframe(from, to, step, Reverse(v))
             && !cal.hasTimestamps(c.start, c.end, GetExisting(cal, v, c.start, c.end, retry))
             && (v.CandleCacheIterator? ==> v.canAggregate(c.start, c.end))
  {
    KeepMembership(cal.iterTimeframe(from, to, step, Reverse(v)), AdmissibleOf(cal, v, retry), c);
  }

  /** `get_max_timestamp_to`: the current time floored to the minute. */
  function MaxTimestampTo(now: int): (r: int)
    ensures r % Minute == 0 && r <= now < r + Minute
  {
    now - now % Minute
  }

  /** The guard of `iter_hours`: a missing interval is dropped only when its start equals its
      end clamped to `maxTo`; otherwise it is yielded with its own, unclamped end. */
  function GuardOf(maxTo: int): Interval -> bool
  {
    (c: Interval) => c.start != (if c.end > maxTo then maxTo else c.end)
  }

  lemma GuardMembership(missing: seq<Interval>, maxTo: int, c: Interval)
    ensures c in KeepIntervals(missing, GuardOf(maxTo))
        <==> c in missing && c.start != (if c.end > maxTo then maxTo else c.end)
  {
    KeepMembership(missing, GuardOf(maxTo), c);
  }

  /** With the clock at minute 2, an interval running past it is yielded whole, one starting at
      minute 2 is dropped, and one lying wholly after it is still yielded. */
  lemma GuardExamples()
    ensures var maxTo := MaxTimestampTo(150);
      && maxTo == 120
      && KeepIntervals([Interval(60, 3600)], GuardOf(maxTo)) == [Interval(60, 3600)]
      && KeepIntervals([Interval(120, 180)], GuardOf(maxTo)) == []
      && KeepIntervals([Interval(180, 240)], GuardOf(maxTo)) == [Interval(180, 240)]
  {
    assert KeepIntervals([Interval(60, 3600)], GuardOf(120)) == [Interval(60, 3600)] + KeepIntervals([], GuardOf(120));
    assert KeepIntervals([Interval(120, 180)], GuardOf(120)) == [] + KeepIntervals([], GuardOf(120));
    assert KeepIntervals([Interval(180, 240)], GuardOf(120)) == [Interval(180, 240)] + KeepIntervals([], GuardOf(120));
  }

  function Identity(t: int): int
  {
    t
  }

  /** The chunk's existing timestamps that fall in hour `h`. */
  function HourExisting(partition: seq<int>, h: Interval): seq<int>
  {
    FilterByTimestamp(partition, Identity, h.start, h.end, false)
  }

  lemma HourExistingMembership(partition: seq<int>, h: Interval, t: int)
    ensures t in HourExisting(partition, h) <==> t in partition && h.start <= t < h.end
  {
    FilterMembership(partition, Identity, h.start, h.end, false, t);
  }

  /** What `iter_hours` yields for one hour: nothing when the hour has data, otherwise its
      guarded missing intervals. */
  function HourOutput(cal: Calendar, v: Variant, now: int, h: Interval, partition: seq<int>): seq<Interval>
  {
    var existing := HourExisting(partition, h);
    if cal.hasTimestamps(h.start, h.end, existing) then []
    else KeepIntervals(cal.iterMissing(h.start, h.end, existing, Reverse(v)), GuardOf(MaxTimestampTo(now)))
  }

  /** An hour that already has data yields nothing; any other hour yields exactly those of
      its missing intervals that pass the clock guard. */
  lemma HourOutputMembership(cal: Calendar, v: Variant, now: int, h: Interval, partition: seq<int>, c: Interval)
    ensures cal.hasTimestamps(h.start, h.end, HourExisting(partition, h)) ==> HourOutput(cal, v, now, h, partition) == []
    ensures !cal.hasTimestamps(h.start, h.end, HourExisting(partition, h)) ==>
      (c in HourOutput(cal, v, now, h, partition) <==>
         c in cal.iterMissing(h.start, h.end, HourExisting(partition, h), Reverse(v))
             && c.start != (if c.end > MaxTimestampTo(now) then MaxTimestampTo(now) else c.end))
  {
    KeepMembership(cal.iterMissing(h.start, h.end, HourExisting(partition, h), Reverse(v)), GuardOf(MaxTimestampTo(now)), c);
  }

  /** What each hour yields, hour by hour. */
  function HourGroups(cal: Calendar, v: Variant, now: int, hours: seq<Interval>, partition: seq<int>): seq<seq<Interval>>
  {
    seq(|hours|, k requires 0 <= k < |hours| => HourOutput(cal, v, now, hours[k], partition))
  }

  /** `iter_hours`: the hours of the chunk in the variant's direction, each refined into its
      missing intervals. The clock is read once; the source reads it per missing interval. */
  function IterHours(cal: Calendar, v: Variant, now: int, from: int, to: int, partition: seq<int>): seq<Interval>
  {
    Flatten(HourGroups(cal, v, now, cal.iterTimeframe(from, to, Hour, Reverse(v)), partition))
  }

  /** An interval comes out of `iter_hours` exactly when one of the chunk's hours, taken in the
      variant's direction, yields it. */
  lemma IterHoursMembership(cal: Calendar, v: Variant, now: int, from: int, to: int, partition: seq<int>, c: Interval)
    ensures var hours := cal.iterTimeframe(from, to, Hour, Reverse(v));
      c in IterHours(cal, v, now, from, to, partition) <==>
      exists k :: 0 <= k < |hours| && c in HourOutput(cal, v, now, hours[k], partition)
  {
    var hours := cal.iterTimeframe(from, to, Hour, Reverse(v));
    var groups := HourGroups(cal, v, now, hours, partition);
    FlattenMembership(groups, c);
    if k :| 0 <= k < |groups| && c in groups[k] {
      assert groups[k] == HourOutput(cal, v, now, hours[k], partition);
    }
    if k :| 0 <= k < |hours| && c in HourOutput(cal, v, now, hours[k], partition) {
      assert groups[k] == HourOutput(cal, v, now, hours[k], partition);
    }
  }

  /** What `iter_hours` yields for each chunk, chunk by chunk. */
  function ChunkGroups(cal: Calendar, v: Variant, now: int, chunks: seq<Chunk>): seq<seq<Interval>>
  {
    seq(|chunks|, k requires 0 <= k < |chunks| =>
      IterHours(cal, v, now, chunks[k].window.start, chunks[k].window.end, chunks[k].existing))
  }

  /** `iter_all`: the hours of every chunk `iter_range` yields, in order. */
  function IterAll(cal: Calendar, v: Variant, now: int, from: int, to: int, step: int, retry: bool): seq<Interval>
  {
    Flatten(ChunkGroups(cal, v, now, IterRange(cal, v, from, to, step, retry)))
  }

  /** An interval comes out of `iter_all` exactly when `iter_hours` yields it for one of the
      chunks `iter_range` yields. */
  lemma IterAllMembership(cal: Calendar, v: Variant, now: int, from: int, to: int, step: int, retry: bool, c: Interval)
    ensures var chunks := IterRange(cal, v, from, to, step, retry);
      c in IterAll(cal, v, now, from, to, step, retry) <==>
      exists k :: 0 <= k < |chunks| && c in IterHours(cal, v, now, chunks[k].window.start, chunks[k].window.end, chunks[k].existing)
  {
    var chunks := IterRange(cal, v, from, to, step, retry);
    var groups := ChunkGroups(cal, v, now, chunks);
    FlattenMembership(groups, c);
    if k :| 0 <= k < |groups| && c in groups[k] {
      assert groups[k] == IterHours(cal, v, now, chunks[k].window.start, chunks[k].window.end, chunks[k].existing);
    }
    if k :| 0 <= k < |chunks| && c in IterHours(cal, v, now, chunks[k].window.start, chunks[k].window.end, chunks[k].existing) {
      assert groups[k] == IterHours(cal, v, now, chunks[k].window.start, chunks[k].window.end, chunks[k].existing);
    }
  }

  /** The only assumption made about the calendar helpers: the windows and missing intervals
      they return lie inside the requested range and follow the requested direction. */
  ghost predicate WellBehaved(cal: Calendar)
  {
    && (forall from, to, step, reverse ::
          Within(cal.iterTimeframe(from, to, step, reverse), from, to)
          && Ordered(cal.iterTimeframe(from, to, step, reverse), reverse))
    && (forall from, to, existing, reverse ::
          Within(cal.iterMissing(from, to, existing, reverse), from, to)
          && Ordered(cal.iterMissing(from, to, existing, reverse), reverse))
  }

  lemma HourOutputOrdered(cal: Calendar, v: Variant, now: int, h: Interval, partition: seq<int>)
    requires WellBehaved(cal)
    ensures Within(HourOutput(cal, v, now, h, partition), h.start, h.end)
    ensures Ordered(HourOutput(cal, v, now, h, partition), Reverse(v))
  {
    var existing := HourExisting(partition, h);
    if !cal.hasTimestamps(h.start, h.end, existing) {
      KeepOrdered(cal.iterMissing(h.start, h.end, existing, Reverse(v)), GuardOf(MaxTimestampTo(now)), Reverse(v), h.start, h.end);
    }
  }

  /** `iter_hours` stays inside its chunk and follows the variant's direction. */
  lemma IterHoursOrdered(cal: Calendar, v: Variant, now: int, from: int, to: int, partition: seq<int>)
    requires WellBehaved(cal)
    ensures Within(IterHours(cal, v, now, from, to, partition), from, to)
    ensures Ordered(IterHours(cal, v, now, from, to, partition), Reverse(v))
  {
    var hours := cal.iterTimeframe(from, to, Hour, Reverse(v));
    var groups := HourGroups(cal, v, now, hours, partition);
    forall k | 0 <= k < |groups|
      ensures Within(groups[k], hours[k].start, hours[k].end) && Ordered(groups[k], Reverse(v))
    {
      HourOutputOrdered(cal, v, now, hours[k], partition);
    }
    ConcatOrdered(groups, hours, Reverse(v), from, to);
  }

  /** The intervals `iter_all` yields lie in the requested range and never overlap; the
      candle-cache iterator yields them from past to present and the trade-data iterator from
      present to past. */
  lemma IterAllOrdered(cal: Calendar, v: Variant, now: int, from: int, to: int, step: int, retry: bool)
    requires WellBehaved(cal)
    ensures var out := IterAll(cal, v, now, from, to, step, retry);
      && Within(out, from, to)
      && (v.CandleCacheIterator? ==> forall i, j :: 0 <= i < j < |out| ==> out[i].end <= out[j].start)
      && (v.TradeDataIterator? ==> forall i, j :: 0 <= i < j < |out| ==> out[j].end <= out[i].start)
  {
    var chunks := IterRange(cal, v, from, to, step, retry);
    var windows := RangeWindows(cal, v, from, to, step, retry);
    KeepOrdered(cal.iterTimeframe(from, to, step, Reverse(v)), AdmissibleOf(cal, v, retry), Reverse(v), from, to);
    var groups := ChunkGroups(cal, v, now, chunks);
    forall k | 0 <= k < |groups|
      ensures Within(groups[k], windows[k].start, windows[k].end) && Ordered(groups[k], Reverse(v))
    {
      IterHoursOrdered(cal, v, now, windows[k].start, windows[k].end, chunks[k].existing);
    }
    ConcatOrdered(groups, windows, Reverse(v), from, to);
    var out := Flatten(groups);
    forall i, j | 0 <= i < j < |out|
      ensures Precedes(out[i], out[j], Reverse(v))
    {
    }
  }
}
