/** The adaptive candle's cache rule (quant_candles/models/candle_types/adaptive_candles.py): a
    candle closes once its running sample value reaches a target derived from a moving average
    of daily trade summaries, and the target is recomputed once per day. */
module Adaptive {
  import opened Common
  import opened Windows

  /** The candle's `json_data` settings: the summed column (`volume`, `notional`, `ticks`),
      the moving-average length in days and the number of candles wanted per day. */
  datatype AdaptiveConfig = AdaptiveConfig(sampleType: string, days: int, targetCandlesPerDay: int)

  /** A daily trade summary: its date (the day's first second) and the `candle` totals of its
      `json_data`, by key. */
  datatype Summary = Summary(date: int, candle: map<string, real>)

  /** The cache dictionary `{date, target_value, sample_value}`. */
  datatype AdaptiveCache = AdaptiveCache(date: int, targetValue: Option<real>, sampleValue: real)

  /** `timestamp.date()`, and `get_min_time(timestamp, "1d")`: the start of the timestamp's day. */
  function DateOf(t: int): (d: int)
    ensures d % Day == 0 && d <= t < d + Day
  {
    t - t % Day
  }

  /** `get_initial_cache`: today's date, no target yet, nothing sampled. */
  function InitialCache(t: int): AdaptiveCache
  {
    AdaptiveCache(DateOf(t), None, 0.0)
  }

  function SummaryDate(s: Summary): int
  {
    s.date
  }

  /** The first day of the moving average: `days` days before the timestamp's day. */
  function WindowStart(cfg: AdaptiveConfig, t: int): int
  {
    DateOf(t) - cfg.days * Day
  }

  /** `get_trade_data_summary` as written: dates `>= date_from` and `< date_from`. */
  function SummariesAsWritten(cfg: AdaptiveConfig, summaries: seq<Summary>, t: int): seq<Summary>
  {
    FilterByTimestamp(summaries, SummaryDate, WindowStart(cfg, t), WindowStart(cfg, t), false)
  }

  /** The evidently intended selection: the `days` days before the timestamp's day. */
  function Summaries(cfg: AdaptiveConfig, summaries: seq<Summary>, t: int): seq<Summary>
  {
    FilterByTimestamp(summaries, SummaryDate, WindowStart(cfg, t), DateOf(t), false)
  }

  /** The selection as written is empty whatever the summaries. */
  lemma SummariesAsWrittenEmpty(cfg: AdaptiveConfig, summaries: seq<Summary>, t: int)
    ensures SummariesAsWritten(cfg, summaries, t) == []
  {
    FilterKeepsNone(summaries, SummaryDate, WindowStart(cfg, t), WindowStart(cfg, t), false);
  }

  /** The intended selection holds exactly the summaries of the `days` days before the
      timestamp's day. */
  lemma SummariesMembership(cfg: AdaptiveConfig, summaries: seq<Summary>, t: int, s: Summary)
    ensures s in Summaries(cfg, summaries, t)
        <==> s in summaries && DateOf(t) - cfg.days * Day <= s.date < DateOf(t)
  {
    FilterMembership(summaries, SummaryDate, WindowStart(cfg, t), DateOf(t), false, s);
  }

  /** ASCII upper case of one character. */
  function Upper(c: char): char
  {
    if 'a' <= c <= 'z' then (c as int - 32) as char else c
  }

  predicate IsUpper(c: char)
  {
    'A' <= c <= 'Z'
  }

  /** Two strings that spell the same letters, whatever their case. */
  predicate SameLetters(a: string, b: string)
  {
    |a| == |b| && forall i :: 0 <= i < |a| ==> Upper(a[i]) == Upper(b[i])
  }

  /** `str.lower` on ASCII text: no upper-case letter is left, and every character keeps its
      letter. */
  function Lower(s: string): (r: string)
    ensures |r| == |s|
    ensures forall i :: 0 <= i < |s| ==> !IsUpper(r[i])
    ensures SameLetters(r, s)
  {
    seq(|s|, i requires 0 <= i < |s| => if 'A' <= s[i] <= 'Z' then (s[i] as int + 32) as char else s[i])
  }

  /** Python's `str.capitalize` on ASCII text: the first letter in upper case, every other
      character in lower case, all letters kept. */
  function Capitalize(s: string): (r: string)
    ensures SameLetters(r, s)
    ensures |s| > 0 ==> r[0] == Upper(r[0])
    ensures forall i :: 1 <= i < |s| ==> !IsUpper(r[i])
  {
    if |s| == 0 then "" else [Upper(s[0])] + Lower(s[1..])
  }

  /** Among characters that are not upper-case letters, the upper case tells them apart. */
  lemma UpperDetermines(a: char, b: char)
    requires !IsUpper(a) && !IsUpper(b) && Upper(a) == Upper(b)
    ensures a == b
  {
  }

  /** Lower-casing twice is lower-casing once. */
  lemma LowerIdempotent(s: string)
    ensures Lower(Lower(s)) == Lower(s)
  {
    var l := Lower(s);
    forall i | 0 <= i < |s|
      ensures Lower(l)[i] == l[i]
    {
      UpperDetermines(Lower(l)[i], l[i]);
    }
  }

  /** Capitalisation depends only on the letters, not on how they are cased: two spellings of
      one word capitalise alike. */
  lemma CapitalizeIgnoresCase(a: string, b: string)
    requires SameLetters(a, b)
    ensures Capitalize(a) == Capitalize(b)
  {
    var ca := Capitalize(a);
    var cb := Capitalize(b);
    forall i | 0 <= i < |a|
      ensures ca[i] == cb[i]
    {
      if i > 0 {
        UpperDetermines(ca[i], cb[i]);
      }
    }
  }

  /** Capitalising ignores a prior lower-casing. */
  lemma CapitalizeLower(s: string)
    ensures Capitalize(Lower(s)) == Capitalize(s)
  {
    CapitalizeIgnoresCase(Lower(s), s);
  }

  /** The summary key of the sample type, `total<SampleType>`. */
  function TotalKey(cfg: AdaptiveConfig): string
  {
    "total" + Capitalize(cfg.sampleType)
  }

  /** Two sample types spelled with the same letters read the same summary key. */
  lemma TotalKeyIgnoresCase(cfg: AdaptiveConfig, other: AdaptiveConfig)
    requires SameLetters(cfg.sampleType, other.sampleType)
    ensures TotalKey(cfg) == TotalKey(other)
  {
    CapitalizeIgnoresCase(cfg.sampleType, other.sampleType);
  }

  /** `volume` gives the key `totalVolume`, and so does any other spelling of it. */
  lemma TotalKeyExamples(cfg: AdaptiveConfig)
    requires SameLetters(cfg.sampleType, "volume")
    ensures TotalKey(AdaptiveConfig("volume", 7, 24)) == "totalVolume"
    ensures TotalKey(cfg) == "totalVolume"
  {
    var a := "volume";
    assert Capitalize(a) == [Upper(a[0])] + Lower(a[1..]);
    assert Lower(a[1..]) == "olume";
    TotalKeyIgnoresCase(cfg, AdaptiveConfig("volume", 7, 24));
  }

  predicate HasTotals(sel: seq<Summary>, key: string)
  {
    forall i :: 0 <= i < |sel| ==> key in sel[i].candle
  }

  function SumTotals(sel: seq<Summary>, key: string): real
    requires HasTotals(sel, key)
    decreases |sel|
  {
    if |sel| == 0 then 0.0 else sel[0].candle[key] + SumTotals(sel[1..], key)
  }

  /** `get_target_value` over a selection: the selection's total spread over `days` days and
      `target_candles_per_day` candles. */
  function TargetOf(cfg: AdaptiveConfig, sel: seq<Summary>): (target: real)
    requires cfg.days != 0 && cfg.targetCandlesPerDay != 0
    requires HasTotals(sel, TotalKey(cfg))
  {
    SumTotals(sel, TotalKey(cfg)) / (cfg.days as real) / (cfg.targetCandlesPerDay as real)
  }

  /** The target times the days and the candles per day gives back the selection's total: the
      target is the average share of one candle. */
  lemma TargetScales(cfg: AdaptiveConfig, sel: seq<Summary>)
    requires cfg.days != 0 && cfg.targetCandlesPerDay != 0
    requires HasTotals(sel, TotalKey(cfg))
    ensures TargetOf(cfg, sel) * (cfg.days as real) * (cfg.targetCandlesPerDay as real) == SumTotals(sel, TotalKey(cfg))
  {
    var total := SumTotals(sel, TotalKey(cfg));
    var d := cfg.days as real;
    var n := cfg.targetCandlesPerDay as real;
    assert (total / d / n) * n == total / d;
    assert (total / d) * d == total;
  }

  /** `get_target_value` as written: over the (empty) selection as written. */
  function TargetValueAsWritten(cfg: AdaptiveConfig, summaries: seq<Summary>, t: int): real
    requires cfg.days != 0 && cfg.targetCandlesPerDay != 0
  {
    SummariesAsWrittenEmpty(cfg, summaries, t);
    TargetOf(cfg, SummariesAsWritten(cfg, summaries, t))
  }

  /** As written, the target is always zero, so every candle closes at once. */
  lemma TargetValueAsWrittenZero(cfg: AdaptiveConfig, summaries: seq<Summary>, t: int)
    requires cfg.days != 0 && cfg.targetCandlesPerDay != 0
    ensures TargetValueAsWritten(cfg, summaries, t) == 0.0
  {
    SummariesAsWrittenEmpty(cfg, summaries, t);
  }

  /** The summaries a target for time `t` needs all carry the sample type's total. */
  predicate TotalsPresent(cfg: AdaptiveConfig, summaries: seq<Summary>, t: int)
  {
    HasTotals(Summaries(cfg, summaries, t), TotalKey(cfg))
  }

  /** `get_target_value` over the intended selection. */
  function TargetValue(cfg: AdaptiveConfig, summaries: seq<Summary>, t: int): real
    requires cfg.days != 0 && cfg.targetCandlesPerDay != 0
    requires TotalsPresent(cfg, summaries, t)
  {
    TargetOf(cfg, Summaries(cfg, summaries, t))
  }

  /** The target must be recomputed when the cache's day is over or it has no target yet. */
  predicate NeedsTarget(data: AdaptiveCache, t: int)
  {
    data.date != DateOf(t) || data.targetValue.None?
  }

  /** `get_cache_data` as written: after the parent candle's update (`parent`), a stale or
      missing target is recomputed by `get_target_value` over the selection as written, which
      reads no summary. */
  function GetCacheDataAsWritten(cfg: AdaptiveConfig, summaries: seq<Summary>, parent: (int, AdaptiveCache) -> AdaptiveCache,
                                 t: int, data: AdaptiveCache): (r: AdaptiveCache)
    requires cfg.days != 0 && cfg.targetCandlesPerDay != 0
  {
    var d := parent(t, data);
    if NeedsTarget(d, t) then d.(targetValue := Some(TargetValueAsWritten(cfg, summaries, t))) else d
  }

  /** As written, a refresh sets the target to zero, so a candle whose target was refreshed
      closes on any non-negative sample value; a current target is kept. */
  lemma GetCacheDataAsWrittenZero(cfg: AdaptiveConfig, summaries: seq<Summary>, parent: (int, AdaptiveCache) -> AdaptiveCache,
                                  t: int, data: AdaptiveCache)
    requires cfg.days != 0 && cfg.targetCandlesPerDay != 0
    ensures var d := parent(t, data);
      var r := GetCacheDataAsWritten(cfg, summaries, parent, t, data);
      && r.date == d.date && r.sampleValue == d.sampleValue && r.targetValue.Some?
      && (NeedsTarget(d, t) ==> r.targetValue == Some(0.0) && (ShouldAggregate(r) <==> d.sampleValue >= 0.0))
      && (!NeedsTarget(d, t) ==> r == d)
  {
    TargetValueAsWrittenZero(cfg, summaries, t);
  }

  /** `get_cache_data` as intended: after the parent candle's update (`parent`), the target is
      recomputed over the `days` days before the timestamp's day when it is stale or missing. */
  function GetCacheData(cfg: AdaptiveConfig, summaries: seq<Summary>, parent: (int, AdaptiveCache) -> AdaptiveCache,
                        t: int, data: AdaptiveCache): (r: AdaptiveCache)
    requires cfg.days != 0 && cfg.targetCandlesPerDay != 0
    requires NeedsTarget(parent(t, data), t) ==> TotalsPresent(cfg, summaries, t)
  {
    var d := parent(t, data);
    if NeedsTarget(d, t) then d.(targetValue := Some(TargetValue(cfg, summaries, t))) else d
  }

  /** As intended, the target is recomputed from the summaries when the day changed or it was
      missing, and otherwise the cache is kept unchanged; the date and sample value are never
      touched here. Afterwards there is always a target. */
  lemma GetCacheDataRefresh(cfg: AdaptiveConfig, summaries: seq<Summary>, parent: (int, AdaptiveCache) -> AdaptiveCache,
                            t: int, data: AdaptiveCache)
    requires cfg.days != 0 && cfg.targetCandlesPerDay != 0
    requires NeedsTarget(parent(t, data), t) ==> TotalsPresent(cfg, summaries, t)
    ensures var d := parent(t, data);
      var r := GetCacheData(cfg, summaries, parent, t, data);
      && r.date == d.date && r.sampleValue == d.sampleValue && r.targetValue.Some?
      && (d.date != DateOf(t) || d.targetValue.None? ==> r.targetValue == Some(TargetValue(cfg, summaries, t)))
      && (d.date == DateOf(t) && d.targetValue.Some? ==> r == d)
  {
  }

  /** A fresh cache is dated on the timestamp's day, has nothing sampled and no target, so it
      gets its target on the first update, whenever that comes. */
  lemma InitialCacheNeedsTarget(t: int, u: int)
    ensures InitialCache(t).date == DateOf(t) && InitialCache(t).targetValue.None?
    ensures InitialCache(t).sampleValue == 0.0
    ensures NeedsTarget(InitialCache(t), u)
  {
  }

  /** `should_aggregate_candle`: the candle closes once the sample value reaches the target. */
  predicate ShouldAggregate(data: AdaptiveCache)
    requires data.targetValue.Some?
  {
    data.sampleValue >= data.targetValue.value
  }

  /** Right after `get_cache_data` as intended, the candle closes exactly when its sample value
      reaches the target of the summaries when the target was stale, or the kept target
      otherwise. */
  lemma ShouldAggregateAfterUpdate(cfg: AdaptiveConfig, summaries: seq<Summary>, parent: (int, AdaptiveCache) -> AdaptiveCache,
                                   t: int, data: AdaptiveCache)
    requires cfg.days != 0 && cfg.targetCandlesPerDay != 0
    requires NeedsTarget(parent(t, data), t) ==> TotalsPresent(cfg, summaries, t)
    ensures var d := parent(t, data);
      var r := GetCacheData(cfg, summaries, parent, t, data);
      && (NeedsTarget(d, t) ==> (ShouldAggregate(r) <==> d.sampleValue >= TargetValue(cfg, summaries, t)))
      && (!NeedsTarget(d, t) ==> (ShouldAggregate(r) <==> d.sampleValue >= d.targetValue.value))
  {
  }

  /** A cache from the day before with one summary of 48 in the window and 24 candles a day:
      as written the refreshed target is zero and the candle closes on its sample of 1, as
      intended the target is 2 and it stays open. */
  lemma GetCacheDataExample()
    ensures TotalsPresent(AdaptiveConfig("volume", 1, 24), [Summary(0, map["totalVolume" := 48.0])], Day)
    ensures var cfg := AdaptiveConfig("volume", 1, 24);
      var summaries := [Summary(0, map["totalVolume" := 48.0])];
      var parent := (t: int, d: AdaptiveCache) => d;
      var data := AdaptiveCache(0, Some(5.0), 1.0);
      var written := GetCacheDataAsWritten(cfg, summaries, parent, Day, data);
      var intended := GetCacheData(cfg, summaries, parent, Day, data);
      && written.targetValue == Some(0.0) && ShouldAggregate(written)
      && intended.targetValue == Some(2.0) && !ShouldAggregate(intended)
  {
    var cfg := AdaptiveConfig("volume", 1, 24);
    var summaries := [Summary(0, map["totalVolume" := 48.0])];
    TargetExample();
    TargetValueAsWrittenZero(cfg, summaries, Day);
    assert DateOf(Day) == Day;
  }

  /** `can_aggregate` as written: the parent's check and a non-empty selection as written. */
  function CanAggregateAsWritten(cfg: AdaptiveConfig, summaries: seq<Summary>, parentCanAggregate: (int, int) -> bool,
                                 from: int, to: int): bool
  {
    parentCanAggregate(from, to) && |SummariesAsWritten(cfg, summaries, from)| > 0
  }

  /** As written, an adaptive candle can never aggregate. */
  lemma CanAggregateAsWrittenNever(cfg: AdaptiveConfig, summaries: seq<Summary>, parentCanAggregate: (int, int) -> bool,
                                   from: int, to: int)
    ensures !CanAggregateAsWritten(cfg, summaries, parentCanAggregate, from, to)
  {
    SummariesAsWrittenEmpty(cfg, summaries, from);
  }

  /** `can_aggregate` over the intended selection. */
  function CanAggregate(cfg: AdaptiveConfig, summaries: seq<Summary>, parentCanAggregate: (int, int) -> bool,
                        from: int, to: int): bool
  {
    parentCanAggregate(from, to) && |Summaries(cfg, summaries, from)| > 0
  }

  /** An adaptive candle can aggregate exactly when its parent can and some summary lies in the
      `days` days before the start's day. */
  lemma CanAggregateIff(cfg: AdaptiveConfig, summaries: seq<Summary>, parentCanAggregate: (int, int) -> bool,
                        from: int, to: int)
    ensures CanAggregate(cfg, summaries, parentCanAggregate, from, to)
        <==> parentCanAggregate(from, to)
             && exists i :: 0 <= i < |summaries| && DateOf(from) - cfg.days * Day <= summaries[i].date < DateOf(from)
  {
    var sel := Summaries(cfg, summaries, from);
    if |sel| > 0 {
      SummariesMembership(cfg, summaries, from, sel[0]);
      var i :| 0 <= i < |summaries| && summaries[i] == sel[0];
    }
    if i :| 0 <= i < |summaries| && DateOf(from) - cfg.days * Day <= summaries[i].date < DateOf(from) {
      SummariesMembership(cfg, summaries, from, summaries[i]);
    }
  }

  /** One summary a day earlier makes the intended target its total over days and candles,
      where the as-written target stays zero. */
  lemma TargetExample()
    ensures var cfg := AdaptiveConfig("volume", 1, 24);
      var summaries := [Summary(0, map["totalVolume" := 48.0])];
      && TotalsPresent(cfg, summaries, Day)
      && TargetValue(cfg, summaries, Day) == 2.0
      && TargetValueAsWritten(cfg, summaries, Day) == 0.0
  {
    var cfg := AdaptiveConfig("volume", 1, 24);
    var summaries := [Summary(0, map["totalVolume" := 48.0])];
    TotalKeyExamples(cfg);
    assert DateOf(Day) == Day;
    assert Summaries(cfg, summaries, Day) == summaries;
    TargetValueAsWrittenZero(cfg, summaries, Day);
  }
}
