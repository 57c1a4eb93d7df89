/** Trade aggregation (quant_tick/lib/aggregate.py: `is_sample`, `aggregate_trades`, `agg_trades`).
    Consecutive ticks at the same instant, on the same side (and of the same symbol when the
    frame has a symbol column) are one execution and merge into one sample. */
module TradeAggregation {
  import opened Common
  import opened Runs

  /** A raw tick. `symbol` is `None` on every row of a frame without a symbol column,
      and `Some` on every row of a frame with one. */
  datatype Tick = Tick(
    uid: string,
    timestamp: int,
    nanoseconds: int,
    price: int,
    volume: int,
    notional: int,
    tickRule: int,
    symbol: Option<string>)

  /** A merged sample: the output of `agg_trades`, and the input of the volume filter. */
  datatype Trade = Trade(
    uid: string,
    timestamp: int,
    nanoseconds: int,
    price: int,
    volume: int,
    notional: int,
    ticks: int,
    tickRule: int,
    symbol: Option<string>)

  /** What two ticks must share to merge. */
  datatype SampleKey = SampleKey(timestamp: int, nanoseconds: int, tickRule: int, symbol: Option<string>)

  function KeyOf(t: Tick): SampleKey
  {
    SampleKey(t.timestamp, t.nanoseconds, t.tickRule, t.symbol)
  }

  function TickVolume(t: Tick): int { t.volume }
  function TickNotional(t: Tick): int { t.notional }
  function CountOne(t: Tick): int { 1 }
  function TradeVolume(t: Trade): int { t.volume }
  function TradeNotional(t: Trade): int { t.notional }
  function TradeTicks(t: Trade): int { t.ticks }

  /** `is_sample`: true when the two rows do NOT belong to one sample. The last comparison also
      covers a frame without a symbol column, where both symbols are `None`. */
  function IsSample(first: Tick, last: Tick): (r: bool)
    ensures r <==> KeyOf(first) != KeyOf(last)
  {
    if first.timestamp == last.timestamp then
      if first.nanoseconds == last.nanoseconds then
        if first.tickRule == last.tickRule then
          first.symbol != last.symbol
        else true
      else true
    else true
  }

  /** `agg_trades`: one sample for a non-empty run. Sums are taken only when the run has more
      than one row; a single row contributes its own values, which are the same sums. */
  function AggTrades(run: seq<Tick>): Trade
    requires |run| > 0
  {
    var first := run[0];
    var last := Last(run);
    var ticks := |run|;
    var volume := if ticks > 1 then Sum(run, TickVolume) else last.volume;
    var notional := if ticks > 1 then Sum(run, TickNotional) else last.notional;
    Trade(first.uid, last.timestamp, last.nanoseconds, last.price, volume, notional, ticks, last.tickRule, last.symbol)
  }

  /** A sample takes its uid from the run's first row, its instant, price, side and symbol from
      the last, and sums the run's volume, notional and tick count. */
  lemma AggTradesSpec(run: seq<Tick>)
    requires |run| > 0
    ensures var r := AggTrades(run);
      && r.uid == run[0].uid
      && r.timestamp == Last(run).timestamp && r.nanoseconds == Last(run).nanoseconds
      && r.price == Last(run).price && r.tickRule == Last(run).tickRule && r.symbol == Last(run).symbol
      && r.volume == Sum(run, TickVolume) && r.notional == Sum(run, TickNotional)
      && r.ticks == |run| == Sum(run, CountOne)
  {
    SumOfOnes(run);
  }

  lemma {:induction false} SumOfOnes(xs: seq<Tick>)
    ensures Sum(xs, CountOne) == |xs|
    decreases |xs|
  {
    if |xs| > 0 {
      SumOfOnes(xs[1..]);
    }
  }

  /** One sample per run, in order. */
  function AggregateRuns(runs: seq<seq<Tick>>): (samples: seq<Trade>)
    requires forall i :: 0 <= i < |runs| ==> |runs[i]| > 0
    ensures |samples| == |runs|
    ensures forall i :: 0 <= i < |runs| ==> samples[i] == AggTrades(runs[i])
    decreases |runs|
  {
    if |runs| == 0 then []
    else
      var rest := AggregateRuns(runs[1..]);
      assert forall i :: 1 <= i < |runs| ==> runs[i] == runs[1..][i - 1];
      [AggTrades(runs[0])] + rest
  }

  /** The reference meaning of `aggregate_trades`: one sample per maximal run of equal keys. */
  function MergedSamples(rows: seq<Tick>): seq<Trade>
  {
    AggregateRuns(Split(rows, KeyOf))
  }

  /** Samples conserve volume, notional and tick count of the rows they merge. */
  lemma MergedSamplesConserve(rows: seq<Tick>)
    ensures Sum(MergedSamples(rows), TradeVolume) == Sum(rows, TickVolume)
    ensures Sum(MergedSamples(rows), TradeNotional) == Sum(rows, TickNotional)
    ensures Sum(MergedSamples(rows), TradeTicks) == |rows|
  {
    var runs := Split(rows, KeyOf);
    var samples := MergedSamples(rows);
    SplitIsDecomposition(rows, KeyOf);
    forall i | 0 <= i < |runs|
      ensures TradeVolume(samples[i]) == Sum(runs[i], TickVolume)
      ensures TradeNotional(samples[i]) == Sum(runs[i], TickNotional)
      ensures TradeTicks(samples[i]) == Sum(runs[i], CountOne)
    {
      AggTradesSpec(runs[i]);
    }
    SumOverGroups(samples, TradeVolume, runs, TickVolume);
    SumOverGroups(samples, TradeNotional, runs, TickNotional);
    SumOverGroups(samples, TradeTicks, runs, CountOne);
    SumOfOnes(rows);
  }

  /** Row-index form of `is_sample`, as the source calls it on a frame. */
  function IsSampleAt(rows: seq<Tick>, firstIndex: int, lastIndex: int): bool
    requires 0 <= firstIndex < |rows| && 0 <= lastIndex < |rows|
  {
    IsSample(rows[firstIndex], rows[lastIndex])
  }

  /** The samples the loop of `aggregate_trades` still appends from state (`idx`, `index`):
      the open run starts at `idx`, and `index` is the row about to be visited. The last row
      is compared with the open run's first row, every other row with its predecessor. */
  function ScanSamples(rows: seq<Tick>, idx: int, index: int): seq<Trade>
    requires 0 <= idx < index < |rows|
    decreases |rows| - index
  {
    if index == |rows| - 1 then
      if !IsSampleAt(rows, idx, index) then [AggTrades(rows[idx..])]
      else [AggTrades(rows[idx..index]), AggTrades(rows[index..])]
    else if IsSampleAt(rows, index - 1, index) then
      [AggTrades(rows[idx..index])] + ScanSamples(rows, index, index + 1)
    else ScanSamples(rows, idx, index + 1)
  }

  /** Rows `idx .. index` all carry the key of row `idx`. */
  ghost predicate OneKey(rows: seq<Tick>, idx: int, index: int)
  {
    && 0 <= idx < index <= |rows|
    && forall j :: idx <= j < index ==> KeyOf(rows[j]) == KeyOf(rows[idx])
  }

  /** In the last iteration the source compares the last row with the open run's first row
      rather than with its predecessor; on a run of one key the two comparisons agree. */
  lemma LastComparisonAgrees(rows: seq<Tick>, idx: int, index: int)
    requires OneKey(rows, idx, index) && index < |rows|
    ensures IsSampleAt(rows, idx, index) == IsSampleAt(rows, index - 1, index)
  {
    assert KeyOf(rows[index - 1]) == KeyOf(rows[idx]);
  }

  /** Rows `idx .. index` of one key, followed by another key or by the end of the frame, are
      the first merged sample of the rows from `idx` on. */
  lemma MergedFirstRun(rows: seq<Tick>, idx: int, index: int)
    requires OneKey(rows, idx, index)
    requires index < |rows| ==> KeyOf(rows[index]) != KeyOf(rows[idx])
    ensures MergedSamples(rows[idx..]) == [AggTrades(rows[idx..index])] + MergedSamples(rows[index..])
  {
    assert SameKey(rows, KeyOf, idx, index);
    SplitRunAt(rows, KeyOf, idx, index);
    TailOfCons(rows[idx..index], Split(rows[index..], KeyOf));
  }

  /** Rows of one key up to the end of the frame are a single merged sample. */
  lemma MergedWhole(rows: seq<Tick>, idx: int)
    requires OneKey(rows, idx, |rows|)
    ensures MergedSamples(rows[idx..]) == [AggTrades(rows[idx..])]
  {
    MergedFirstRun(rows, idx, |rows|);
    assert rows[idx..|rows|] == rows[idx..];
    assert rows[|rows|..] == [];
  }

  /** The last iteration appends the samples of the maximal runs of the rows from `idx` on. */
  lemma LastStepMerged(rows: seq<Tick>, idx: int, index: int)
    requires OneKey(rows, idx, index) && index == |rows| - 1
    ensures MergedFrom(rows, idx, index)
  {
    if !IsSampleAt(rows, idx, index) {
      MergedWhole(rows, idx);
    } else {
      MergedFirstRun(rows, idx, index);
      MergedWhole(rows, index);
    }
  }

  /** A row with a new key closes the open run as the first merged sample. */
  lemma CloseStepMerged(rows: seq<Tick>, idx: int, index: int)
    requires OneKey(rows, idx, index) && index < |rows| - 1
    requires IsSampleAt(rows, index - 1, index)
    requires ScanSamples(rows, index, index + 1) == MergedSamples(rows[index..])
    ensures ScanSamples(rows, idx, index) == MergedSamples(rows[idx..])
  {
    MergedFirstRun(rows, idx, index);
  }

  /** A row with the open run's key extends it. */
  lemma SkipStepMerged(rows: seq<Tick>, idx: int, index: int)
    requires OneKey(rows, idx, index) && index < |rows| - 1
    requires !IsSampleAt(rows, index - 1, index)
    ensures OneKey(rows, idx, index + 1)
    ensures ScanSamples(rows, idx, index) == ScanSamples(rows, idx, index + 1)
  {
  }

  lemma SingleKey(rows: seq<Tick>, i: int)
    requires 0 <= i < |rows|
    ensures OneKey(rows, i, i + 1)
  {
  }

  /** From any state whose open run holds one key, the loop appends the samples of the maximal
      runs of the remaining rows. */
  lemma {:induction false} ScanSamplesMerged(rows: seq<Tick>, idx: int, index: int)
    requires OneKey(rows, idx, index) && index < |rows|
    ensures MergedFrom(rows, idx, index)
    decreases |rows| - index
  {
    if index == |rows| - 1 {
      LastStepMerged(rows, idx, index);
    } else {
      MergeStep(rows, idx, index);
      ScanSamplesMerged(rows, NextIdx(rows, idx, index), index + 1);
    }
  }

  /** From loop state (`idx`, `index`) the loop emits the merged samples of the rows from `idx`. */
  ghost predicate MergedFrom(rows: seq<Tick>, idx: int, index: int)
    requires 0 <= idx < index < |rows|
  {
    ScanSamples(rows, idx, index) == MergedSamples(rows[idx..])
  }

  /** The start of the open run after the loop visits row `index`. */
  function NextIdx(rows: seq<Tick>, idx: int, index: int): int
    requires 0 <= idx < index < |rows|
  {
    if IsSampleAt(rows, index - 1, index) then index else idx
  }

  /** One iteration before the last keeps the open run of one key, and the loop appends the
      merged samples when it does so from the next state. */
  lemma MergeStep(rows: seq<Tick>, idx: int, index: int)
    requires OneKey(rows, idx, index) && index < |rows| - 1
    ensures OneKey(rows, NextIdx(rows, idx, index), index + 1)
    ensures MergedFrom(rows, NextIdx(rows, idx, index), index + 1) ==> MergedFrom(rows, idx, index)
  {
    if IsSampleAt(rows, index - 1, index) {
      SingleKey(rows, index);
      if ScanSamples(rows, index, index + 1) == MergedSamples(rows[index..]) {
        CloseStepMerged(rows, idx, index);
      }
    } else {
      SkipStepMerged(rows, idx, index);
    }
  }

  /** The loop of `aggregate_trades` over rows 1 .. n-1 of a frame of two or more rows. */
  method MergeLoop(rows: seq<Tick>) returns (samples: seq<Trade>)
    requires |rows| > 1
    ensures samples == ScanSamples(rows, 0, 1)
  {
    var totalRows := |rows| - 1;
    samples := [];
    var idx := 0;
    var index := 1;
    ghost var whole := ScanSamples(rows, idx, index);
    while index < totalRows
      invariant 0 <= idx < index <= totalRows
      invariant samples + ScanSamples(rows, idx, index) == whole
    {
      var lastIndex := index - 1;
      if IsSampleAt(rows, lastIndex, index) {
        var sample := AggTrades(rows[idx..index]);
        ConcatAssoc(samples, [sample], ScanSamples(rows, index, index + 1));
        samples := samples + [sample];
        idx := index;
      }
      index := index + 1;
    }
    // The last iteration: `index == total_rows`.
    var lastIndex := index - 1;
    if !IsSampleAt(rows, idx, index) {
      samples := samples + [AggTrades(rows[idx..])];
    } else {
      samples := samples + [AggTrades(rows[idx..lastIndex + 1])];
      samples := samples + [AggTrades(rows[index..])];
      ConcatAssoc(samples[..|samples| - 2], [AggTrades(rows[idx..index])], [AggTrades(rows[index..])]);
    }
  }

  /** `aggregate_trades`: the samples are the merged maximal runs. By `MergedSamplesConserve` they
      keep the input's volume and tick count, so the source's volume assertion holds on every input. */
  method AggregateTrades(rows: seq<Tick>) returns (samples: seq<Trade>)
    requires |rows| > 0
    ensures samples == MergedSamples(rows)
  {
    if |rows| > 1 {
      samples := MergeLoop(rows);
      ScanSamplesMerged(rows, 0, 1);
      assert rows[0..] == rows;
    } else {
      samples := [AggTrades(rows)];
      SplitFirstRun(rows, KeyOf, 1);
      assert rows[..1] == rows && rows[1..] == [];
    }
  }

  /** Two ticks at one instant and side merge, a third at another instant stays alone. */
  lemma MergeExample()
    ensures var s := MergedSamples([
              Tick("a", 0, 0, 10, 1, 10, 1, None),
              Tick("b", 0, 0, 10, 2, 20, 1, None),
              Tick("c", 1, 5, 11, 5, 55, -1, None)]);
            && |s| == 2
            && s[0].uid == "a" && s[0].volume == 3 && s[0].notional == 30 && s[0].ticks == 2
            && s[1].uid == "c" && s[1].volume == 5 && s[1].notional == 55 && s[1].ticks == 1
  {
    var a := Tick("a", 0, 0, 10, 1, 10, 1, None);
    var b := Tick("b", 0, 0, 10, 2, 20, 1, None);
    var c := Tick("c", 1, 5, 11, 5, 55, -1, None);
    var rows := [a, b, c];
    var runs := [[a, b], [c]];
    assert Flatten(runs) == [a, b] + Flatten([[c]]);
    assert Flatten([[c]]) == [c] + Flatten([[c]][1..]);
    assert IsRunDecomposition(rows, runs, KeyOf);
    DecompositionUnique(rows, runs, KeyOf);
    assert Sum([a, b], TickVolume) == 1 + Sum([b], TickVolume);
    assert Sum([a, b], TickNotional) == 10 + Sum([b], TickNotional);
  }
}
