/** Volume bars (quant_tick/lib/aggregate.py: `volume_filter_with_time_window`, `volume_filter`).
    Within each time window a bar closes at every row whose OWN volume reaches `min_volume`
    (every row when `min_volume` is falsy); rows after the last close form one trailing bar. */
module VolumeFilter {
  import opened Common
  import opened Windows
  import opened TradeAggregation

  /** One bar. `volume`, `notional`, `tickRule` and `ticks` are copied from the closing row,
      and are `None` on a trailing bar. */
  datatype Bar = Bar(
    uid: string,
    timestamp: int,
    nanoseconds: int,
    price: int,
    volume: Option<int>,
    notional: Option<int>,
    tickRule: Option<int>,
    ticks: Option<int>,
    high: int,
    low: int,
    totalBuyVolume: int,
    totalVolume: int,
    totalBuyNotional: int,
    totalNotional: int,
    totalBuyTicks: int,
    totalTicks: int)

  /** The source asserts that bars carry the input's total volume. */
  datatype IntegrityError = VolumeNotClose

  function TradeTime(t: Trade): int { t.timestamp }
  function BuyVolume(t: Trade): int { if t.tickRule == 1 then t.volume else 0 }
  function BuyNotional(t: Trade): int { if t.tickRule == 1 then t.notional else 0 }
  function BuyTicks(t: Trade): int { if t.tickRule == 1 then t.ticks else 0 }
  function BarTotalVolume(b: Bar): int { b.totalVolume }

  /** `row.volume >= min_volume if min_volume else True`: `None` and 0 are falsy. */
  predicate IsMinVolume(row: Trade, minVolume: Option<int>)
  {
    if minVolume.Some? && minVolume.value != 0 then row.volume >= minVolume.value else true
  }

  /** The column aggregates of a group of rows: price extremes and the (buy-side) totals. */
  datatype Totals = Totals(
    high: int,
    low: int,
    buyVolume: int,
    volume: int,
    buyNotional: int,
    notional: int,
    buyTicks: int,
    ticks: int)

  function RowTotals(t: Trade): Totals
  {
    Totals(t.price, t.price, BuyVolume(t), t.volume, BuyNotional(t), t.notional, BuyTicks(t), t.ticks)
  }

  function Combine(a: Totals, b: Totals): Totals
  {
    Totals(
      if a.high >= b.high then a.high else b.high,
      if a.low <= b.low then a.low else b.low,
      a.buyVolume + b.buyVolume, a.volume + b.volume,
      a.buyNotional + b.buyNotional, a.notional + b.notional,
      a.buyTicks + b.buyTicks, a.ticks + b.ticks)
  }

  /** `df.price.max()`, `df.price.min()`, `buy_side.volume.sum()`, `df.volume.sum()`, ... in one pass. */
  function GroupTotals(group: seq<Trade>): Totals
    requires |group| > 0
    decreases |group|
  {
    if |group| == 1 then RowTotals(group[0]) else Combine(RowTotals(group[0]), GroupTotals(group[1..]))
  }

  /** `df[df.tickRule == 1]` */
  function BuySide(rows: seq<Trade>): (r: seq<Trade>)
    ensures forall i :: 0 <= i < |r| ==> r[i].tickRule == 1
    decreases |rows|
  {
    if |rows| == 0 then []
    else (if rows[0].tickRule == 1 then [rows[0]] else []) + BuySide(rows[1..])
  }

  /** Summing a field over the buy side is summing, over all rows, that field masked to buy rows. */
  lemma {:induction false} SumBuySide(rows: seq<Trade>, f: Trade -> int, masked: Trade -> int)
    requires forall t :: masked(t) == (if t.tickRule == 1 then f(t) else 0)
    ensures Sum(BuySide(rows), f) == Sum(rows, masked)
    decreases |rows|
  {
    if |rows| > 0 {
      var head := if rows[0].tickRule == 1 then [rows[0]] else [];
      SumAppend(head, BuySide(rows[1..]), f);
      SumBuySide(rows[1..], f, masked);
    }
  }

  /** The one-pass aggregates are the column maximum and minimum and the column sums, the buy
      totals being the sums over the buy side. */
  lemma {:induction false} GroupTotalsSpec(group: seq<Trade>)
    requires |group| > 0
    ensures var t := GroupTotals(group);
      && (forall i :: 0 <= i < |group| ==> t.low <= group[i].price <= t.high)
      && (exists i :: 0 <= i < |group| && group[i].price == t.high)
      && (exists i :: 0 <= i < |group| && group[i].price == t.low)
      && t.volume == Sum(group, TradeVolume) && t.buyVolume == Sum(group, BuyVolume)
      && t.notional == Sum(group, TradeNotional) && t.buyNotional == Sum(group, BuyNotional)
      && t.ticks == Sum(group, TradeTicks) && t.buyTicks == Sum(group, BuyTicks)
    decreases |group|
  {
    var t := GroupTotals(group);
    if |group| == 1 {
      assert group[1..] == [];
    } else {
      var rest := group[1..];
      GroupTotalsSpec(rest);
      var r := GroupTotals(rest);
      forall i | 0 < i < |group|
        ensures t.low <= group[i].price <= t.high
      {
        assert group[i] == rest[i - 1];
      }
      var hi :| 0 <= hi < |rest| && rest[hi].price == r.high;
      var lo :| 0 <= lo < |rest| && rest[lo].price == r.low;
      assert group[hi + 1] == rest[hi] && group[lo + 1] == rest[lo];
    }
  }

  /** `volume_filter`: the bar of one non-empty group of rows. */
  function VolumeBar(group: seq<Trade>, isMinVolume: bool): Bar
    requires |group| > 0
  {
    var last := Last(group);
    var totals := GroupTotals(group);
    Bar(
      last.uid, last.timestamp, last.nanoseconds, last.price,
      if isMinVolume then Some(last.volume) else None,
      if isMinVolume then Some(last.notional) else None,
      if isMinVolume then Some(last.tickRule) else None,
      if isMinVolume then Some(last.ticks) else None,
      totals.high, totals.low,
      totals.buyVolume, totals.volume,
      totals.buyNotional, totals.notional,
      totals.buyTicks, totals.ticks)
  }

  /** A bar takes its identity and price from its closing row, spans its rows' prices, and
      carries their totals; the buy totals count only buy rows. */
  lemma VolumeBarSpec(group: seq<Trade>, isMinVolume: bool)
    requires |group| > 0
    ensures var b := VolumeBar(group, isMinVolume);
      && b.uid == Last(group).uid && b.timestamp == Last(group).timestamp
      && b.nanoseconds == Last(group).nanoseconds && b.price == Last(group).price
      && (forall i :: 0 <= i < |group| ==> b.low <= group[i].price <= b.high)
      && (exists i :: 0 <= i < |group| && group[i].price == b.high)
      && (exists i :: 0 <= i < |group| && group[i].price == b.low)
      && b.totalVolume == Sum(group, TradeVolume) && b.totalBuyVolume == Sum(BuySide(group), TradeVolume)
      && b.totalNotional == Sum(group, TradeNotional) && b.totalBuyNotional == Sum(BuySide(group), TradeNotional)
      && b.totalTicks == Sum(group, TradeTicks) && b.totalBuyTicks == Sum(BuySide(group), TradeTicks)
      && (isMinVolume ==> b.volume == Some(Last(group).volume) && b.notional == Some(Last(group).notional)
                          && b.tickRule == Some(Last(group).tickRule) && b.ticks == Some(Last(group).ticks))
      && (!isMinVolume ==> b.volume.None? && b.notional.None? && b.tickRule.None? && b.ticks.None?)
  {
    GroupTotalsSpec(group);
    SumBuySide(group, TradeVolume, BuyVolume);
    SumBuySide(group, TradeNotional, BuyNotional);
    SumBuySide(group, TradeTicks, BuyTicks);
  }

  /** Index of the first row at or after `from` that closes a bar, or `|rows|` when none does. */
  function FirstClose(rows: seq<Trade>, minVolume: Option<int>, from: int): (k: int)
    requires 0 <= from <= |rows|
    ensures from <= k <= |rows|
    ensures forall i :: from <= i < k ==> !IsMinVolume(rows[i], minVolume)
    ensures k < |rows| ==> IsMinVolume(rows[k], minVolume)
    decreases |rows| - from
  {
    if from == |rows| || IsMinVolume(rows[from], minVolume) then from
    else FirstClose(rows, minVolume, from + 1)
  }

  /** `groups` cuts `rows` into bars: a closing row ends its group, no group holds a closing row
      before its end, and only the last group may end without one (the trailing bar). */
  ghost predicate IsBarPartition(rows: seq<Trade>, groups: seq<seq<Trade>>, minVolume: Option<int>)
  {
    && Flatten(groups) == rows
    && (forall i :: 0 <= i < |groups| ==> |groups[i]| > 0)
    && (forall i, j :: 0 <= i < |groups| && 0 <= j < |groups[i]| - 1 ==> !IsMinVolume(groups[i][j], minVolume))
    && (forall i :: 0 <= i < |groups| - 1 ==> IsMinVolume(Last(groups[i]), minVolume))
  }

  /** The row groups of the bars made from the rows at and after `from`. */
  function GroupsFrom(rows: seq<Trade>, minVolume: Option<int>, from: int): (groups: seq<seq<Trade>>)
    requires 0 <= from <= |rows|
    ensures forall i :: 0 <= i < |groups| ==> |groups[i]| > 0
    decreases |rows| - from
  {
    if from == |rows| then []
    else
      var k := FirstClose(rows, minVolume, from);
      if k == |rows| then [rows[from..]]
      else [rows[from..k + 1]] + GroupsFrom(rows, minVolume, k + 1)
  }

  /** A close at `k` ends the first group. */
  lemma GroupsFromClose(rows: seq<Trade>, minVolume: Option<int>, from: int, k: int)
    requires 0 <= from <= k < |rows| && k == FirstClose(rows, minVolume, from)
    ensures GroupsFrom(rows, minVolume, from) == [rows[from..k + 1]] + GroupsFrom(rows, minVolume, k + 1)
  {
  }

  /** With a falsy minimum volume every row closes a bar, so each row from `from` on is a bar alone. */
  lemma {:induction false} GroupsFromFalsy(rows: seq<Trade>, minVolume: Option<int>, from: int)
    requires minVolume.None? || minVolume == Some(0)
    requires 0 <= from <= |rows|
    ensures var groups := GroupsFrom(rows, minVolume, from);
      |groups| == |rows| - from && forall i :: 0 <= i < |groups| ==> groups[i] == [rows[from + i]]
    decreases |rows| - from
  {
    if from < |rows| {
      GroupsFromFalsy(rows, minVolume, from + 1);
      var rest := GroupsFrom(rows, minVolume, from + 1);
      assert rows[from..from + 1] == [rows[from]];
      assert GroupsFrom(rows, minVolume, from) == [[rows[from]]] + rest;
      forall i | 0 < i < |rows| - from
        ensures ([[rows[from]]] + rest)[i] == [rows[from + i]]
      {
        assert rest[i - 1] == [rows[from + 1 + (i - 1)]];
      }
    }
  }

  /** The row groups of the bars of one window. */
  function BarGroups(rows: seq<Trade>, minVolume: Option<int>): (groups: seq<seq<Trade>>)
    ensures forall i :: 0 <= i < |groups| ==> |groups[i]| > 0
  {
    GroupsFrom(rows, minVolume, 0)
  }

  /** `min_volume` of `None` or 0 is falsy: every row closes its own bar. */
  lemma FalsyMinVolumeBars(rows: seq<Trade>, minVolume: Option<int>)
    requires minVolume.None? || minVolume == Some(0)
    ensures var groups := BarGroups(rows, minVolume);
      |groups| == |rows| && forall i :: 0 <= i < |groups| ==> groups[i] == [rows[i]]
  {
    GroupsFromFalsy(rows, minVolume, 0);
  }

  /** Rows with no close among them, but possibly the last, form a one-group partition. */
  lemma SingleGroupPartition(rows: seq<Trade>, minVolume: Option<int>)
    requires |rows| > 0
    requires forall j :: 0 <= j < |rows| - 1 ==> !IsMinVolume(rows[j], minVolume)
    ensures IsBarPartition(rows, [rows], minVolume)
  {
    assert Flatten([rows]) == rows + Flatten([rows][1..]);
  }

  /** A closed group in front of a partition of the following rows. */
  lemma ConsGroupPartition(head: seq<Trade>, tail: seq<Trade>, rest: seq<seq<Trade>>, minVolume: Option<int>)
    requires IsBarPartition(head, [head], minVolume) && IsMinVolume(Last(head), minVolume)
    requires IsBarPartition(tail, rest, minVolume)
    ensures IsBarPartition(head + tail, [head] + rest, minVolume)
  {
    var groups := [head] + rest;
    assert groups[1..] == rest;
    assert Flatten(groups) == head + Flatten(rest);
    forall i, j | 0 <= i < |groups| && 0 <= j < |groups[i]| - 1
      ensures !IsMinVolume(groups[i][j], minVolume)
    {
      if i > 0 {
        assert groups[i] == rest[i - 1];
      }
    }
    forall i | 0 <= i < |groups| - 1
      ensures IsMinVolume(Last(groups[i]), minVolume)
    {
      if i > 0 {
        assert groups[i] == rest[i - 1];
      }
    }
  }

  /** The rows from `from` up to the next close, that close included, form one group. */
  lemma HeadGroupPartition(rows: seq<Trade>, minVolume: Option<int>, from: int, k: int)
    requires 0 <= from < |rows| && k == FirstClose(rows, minVolume, from)
    ensures var head := if k == |rows| then rows[from..] else rows[from..k + 1];
      IsBarPartition(head, [head], minVolume)
  {
    var head := if k == |rows| then rows[from..] else rows[from..k + 1];
    forall j | 0 <= j < |head| - 1
      ensures !IsMinVolume(head[j], minVolume)
    {
      assert head[j] == rows[from + j];
    }
    SingleGroupPartition(head, minVolume);
  }

  lemma {:induction false} GroupsFromPartition(rows: seq<Trade>, minVolume: Option<int>, from: int)
    requires 0 <= from <= |rows|
    ensures IsBarPartition(rows[from..], GroupsFrom(rows, minVolume, from), minVolume)
    decreases |rows| - from
  {
    if from < |rows| {
      var k := FirstClose(rows, minVolume, from);
      HeadGroupPartition(rows, minVolume, from, k);
      if k < |rows| {
        var head := rows[from..k + 1];
        GroupsFromPartition(rows, minVolume, k + 1);
        assert Last(head) == rows[k];
        ConsGroupPartition(head, rows[k + 1..], GroupsFrom(rows, minVolume, k + 1), minVolume);
        assert rows[from..] == head + rows[k + 1..];
      }
    }
  }

  /** `BarGroups` cuts the window's rows at exactly the closing rows. */
  lemma BarGroupsPartition(rows: seq<Trade>, minVolume: Option<int>)
    ensures IsBarPartition(rows, BarGroups(rows, minVolume), minVolume)
  {
    GroupsFromPartition(rows, minVolume, 0);
    assert rows[0..] == rows;
  }

  /** The bar of each group; a group is a closing bar exactly when its last row reaches the threshold. */
  function BarsOf(groups: seq<seq<Trade>>, minVolume: Option<int>): (bars: seq<Bar>)
    requires forall i :: 0 <= i < |groups| ==> |groups[i]| > 0
    ensures |bars| == |groups|
    decreases |groups|
  {
    if |groups| == 0 then []
    else [VolumeBar(groups[0], IsMinVolume(Last(groups[0]), minVolume))] + BarsOf(groups[1..], minVolume)
  }

  lemma BarsOfCons(group: seq<Trade>, rest: seq<seq<Trade>>, minVolume: Option<int>)
    requires |group| > 0
    requires forall i :: 0 <= i < |rest| ==> |rest[i]| > 0
    ensures forall i :: 0 <= i < |[group] + rest| ==> |([group] + rest)[i]| > 0
    ensures BarsOf([group] + rest, minVolume)
         == [VolumeBar(group, IsMinVolume(Last(group), minVolume))] + BarsOf(rest, minVolume)
  {
    TailOfCons(group, rest);
  }

  lemma {:induction false} BarsOfAppend(a: seq<seq<Trade>>, b: seq<seq<Trade>>, minVolume: Option<int>)
    requires forall i :: 0 <= i < |a| ==> |a[i]| > 0
    requires forall i :: 0 <= i < |b| ==> |b[i]| > 0
    ensures forall i :: 0 <= i < |a + b| ==> |(a + b)[i]| > 0
    ensures BarsOf(a + b, minVolume) == BarsOf(a, minVolume) + BarsOf(b, minVolume)
    decreases |a|
  {
    if |a| == 0 {
      assert a + b == b;
    } else {
      assert (a + b)[1..] == a[1..] + b;
      BarsOfAppend(a[1..], b, minVolume);
      var head := [VolumeBar(a[0], IsMinVolume(Last(a[0]), minVolume))];
      ConcatAssoc(head, BarsOf(a[1..], minVolume), BarsOf(b, minVolume));
    }
  }

  /** A bar's totals add up to the volume of the rows it covers. */
  lemma {:induction false} BarsOfPointwise(groups: seq<seq<Trade>>, minVolume: Option<int>)
    requires forall i :: 0 <= i < |groups| ==> |groups[i]| > 0
    ensures forall i :: 0 <= i < |groups| ==>
      BarsOf(groups, minVolume)[i] == VolumeBar(groups[i], IsMinVolume(Last(groups[i]), minVolume))
    decreases |groups|
  {
    if |groups| > 0 {
      BarsOfPointwise(groups[1..], minVolume);
      forall i | 0 < i < |groups|
        ensures BarsOf(groups, minVolume)[i] == VolumeBar(groups[i], IsMinVolume(Last(groups[i]), minVolume))
      {
        assert groups[i] == groups[1..][i - 1];
      }
    }
  }

  lemma BarsConserve(groups: seq<seq<Trade>>, minVolume: Option<int>)
    requires forall i :: 0 <= i < |groups| ==> |groups[i]| > 0
    ensures Sum(BarsOf(groups, minVolume), BarTotalVolume) == Sum(Flatten(groups), TradeVolume)
  {
    BarsOfPointwise(groups, minVolume);
    forall i | 0 <= i < |groups|
      ensures BarTotalVolume(BarsOf(groups, minVolume)[i]) == Sum(groups[i], TradeVolume)
    {
      VolumeBarSpec(groups[i], IsMinVolume(Last(groups[i]), minVolume));
    }
    SumOverGroups(BarsOf(groups, minVolume), BarTotalVolume, groups, TradeVolume);
  }

  /** The bars the inner loop still emits from state (`nextIndex`, `index`): rows from `nextIndex`
      are pending, rows before `index` have been inspected. */
  function ScanBars(rows: seq<Trade>, minVolume: Option<int>, nextIndex: int, index: int): seq<Bar>
    requires 0 <= nextIndex <= index <= |rows|
    decreases |rows| - index
  {
    if index == |rows| then
      if nextIndex < |rows| then [VolumeBar(rows[nextIndex..], false)] else []
    else if IsMinVolume(rows[index], minVolume) then
      [VolumeBar(rows[nextIndex..index + 1], true)] + ScanBars(rows, minVolume, index + 1, index + 1)
    else ScanBars(rows, minVolume, nextIndex, index + 1)
  }

  /** Rows that do not close a bar do not move the next close. */
  lemma {:induction false} FirstCloseSkip(rows: seq<Trade>, minVolume: Option<int>, from: int, index: int)
    requires 0 <= from <= index <= |rows|
    requires forall j :: from <= j < index ==> !IsMinVolume(rows[j], minVolume)
    ensures FirstClose(rows, minVolume, from) == FirstClose(rows, minVolume, index)
    decreases index - from
  {
    if from < index {
      FirstCloseSkip(rows, minVolume, from + 1, index);
    }
  }

  /** A scan state: rows from `nextIndex` are pending and none of those before `index` closes. */
  ghost predicate Pending(rows: seq<Trade>, minVolume: Option<int>, nextIndex: int, index: int)
  {
    && 0 <= nextIndex <= index <= |rows|
    && forall j :: nextIndex <= j < index ==> !IsMinVolume(rows[j], minVolume)
  }

  /** At the end of the window the pending rows, none of which closes, form the trailing bar. */
  lemma TrailingStepBars(rows: seq<Trade>, minVolume: Option<int>, nextIndex: int)
    requires Pending(rows, minVolume, nextIndex, |rows|)
    ensures ScanBars(rows, minVolume, nextIndex, |rows|) == BarsOf(GroupsFrom(rows, minVolume, nextIndex), minVolume)
  {
    FirstCloseSkip(rows, minVolume, nextIndex, |rows|);
    if nextIndex < |rows| {
      var sample := rows[nextIndex..];
      assert GroupsFrom(rows, minVolume, nextIndex) == [sample];
      LastOfSlice(rows, nextIndex, |rows|);
      BarsOfCons(sample, [], minVolume);
    }
  }

  /** A closing row emits the bar of the pending rows, which is the first group's bar. */
  lemma CloseStepBars(rows: seq<Trade>, minVolume: Option<int>, nextIndex: int, index: int)
    requires Pending(rows, minVolume, nextIndex, index) && index < |rows|
    requires IsMinVolume(rows[index], minVolume)
    requires ScanBars(rows, minVolume, index + 1, index + 1) == BarsOf(GroupsFrom(rows, minVolume, index + 1), minVolume)
    ensures ScanBars(rows, minVolume, nextIndex, index) == BarsOf(GroupsFrom(rows, minVolume, nextIndex), minVolume)
  {
    ScanClose(rows, minVolume, nextIndex, index);
    CloseGroupBars(rows, minVolume, nextIndex, index);
  }

  /** The pending rows and the closing row are the first group, whose bar closed on volume. */
  lemma CloseGroupBars(rows: seq<Trade>, minVolume: Option<int>, nextIndex: int, index: int)
    requires Pending(rows, minVolume, nextIndex, index) && index < |rows|
    requires IsMinVolume(rows[index], minVolume)
    ensures BarsOf(GroupsFrom(rows, minVolume, nextIndex), minVolume)
         == [VolumeBar(rows[nextIndex..index + 1], true)] + BarsOf(GroupsFrom(rows, minVolume, index + 1), minVolume)
  {
    FirstCloseSkip(rows, minVolume, nextIndex, index);
    var sample := rows[nextIndex..index + 1];
    var rest := GroupsFrom(rows, minVolume, index + 1);
    assert FirstClose(rows, minVolume, index) == index;
    GroupsFromClose(rows, minVolume, nextIndex, index);
    LastOfSlice(rows, nextIndex, index + 1);
    BarsOfCons(sample, rest, minVolume);
  }

  /** A row that does not close joins the pending rows. */
  lemma SkipStepBars(rows: seq<Trade>, minVolume: Option<int>, nextIndex: int, index: int)
    requires Pending(rows, minVolume, nextIndex, index) && index < |rows|
    requires !IsMinVolume(rows[index], minVolume)
    ensures Pending(rows, minVolume, nextIndex, index + 1)
    ensures ScanBars(rows, minVolume, nextIndex, index) == ScanBars(rows, minVolume, nextIndex, index + 1)
  {
  }

  /** The scan emits the bars of the partition: from any state whose pending rows hold no close,
      what remains to emit is the bars of the groups of the rows from `nextIndex` on. */
  lemma {:induction false} ScanBarsPartition(rows: seq<Trade>, minVolume: Option<int>, nextIndex: int, index: int)
    requires Pending(rows, minVolume, nextIndex, index)
    ensures ScanBars(rows, minVolume, nextIndex, index) == BarsOf(GroupsFrom(rows, minVolume, nextIndex), minVolume)
    decreases |rows| - index
  {
    if index == |rows| {
      TrailingStepBars(rows, minVolume, nextIndex);
    } else if IsMinVolume(rows[index], minVolume) {
      ScanBarsPartition(rows, minVolume, index + 1, index + 1);
      CloseStepBars(rows, minVolume, nextIndex, index);
    } else {
      SkipStepBars(rows, minVolume, nextIndex, index);
      ScanBarsPartition(rows, minVolume, nextIndex, index + 1);
    }
  }

  lemma ScanClose(rows: seq<Trade>, minVolume: Option<int>, nextIndex: int, index: int)
    requires 0 <= nextIndex <= index < |rows| && IsMinVolume(rows[index], minVolume)
    ensures ScanBars(rows, minVolume, nextIndex, index)
         == [VolumeBar(rows[nextIndex..index + 1], true)] + ScanBars(rows, minVolume, index + 1, index + 1)
  {
  }

  lemma ScanSkip(rows: seq<Trade>, minVolume: Option<int>, nextIndex: int, index: int)
    requires 0 <= nextIndex <= index < |rows| && !IsMinVolume(rows[index], minVolume)
    ensures ScanBars(rows, minVolume, nextIndex, index) == ScanBars(rows, minVolume, nextIndex, index + 1)
  {
  }

  /** The scan of a whole window emits the bars of its partition into groups. */
  lemma WindowBarsPartition(rows: seq<Trade>, minVolume: Option<int>)
    ensures ScanBars(rows, minVolume, 0, 0) == BarsOf(BarGroups(rows, minVolume), minVolume)
  {
    ScanBarsPartition(rows, minVolume, 0, 0);
  }

  /** The loop of `volume_filter_with_time_window` over the rows of one window: the bars closed
      by min-volume rows, and where the open bar starts. */
  method ScanWindow(rows: seq<Trade>, minVolume: Option<int>) returns (bars: seq<Bar>, nextIndex: int)
    ensures 0 <= nextIndex <= |rows|
    ensures bars + ScanBars(rows, minVolume, nextIndex, |rows|) == ScanBars(rows, minVolume, 0, 0)
  {
    bars := [];
    nextIndex := 0;
    var index := 0;
    // Compared with `true` so that the verifier keeps the predicate whole instead of unfolding
    // the scan in it at every step.
    while index < |rows|
      invariant 0 <= nextIndex <= index <= |rows|
      invariant Emitted(bars, rows, minVolume, nextIndex, index) == true
    {
      var isMinVolume := IsMinVolume(rows[index], minVolume);
      if isMinVolume {
        // `df.loc[:index]` for the first row, `df.loc[next_index:index]` otherwise; both start
        // at `nextIndex`, which is 0 until the first bar closes.
        var sample := rows[nextIndex..index + 1];
        ScanCloseAppend(bars, rows, minVolume, nextIndex, index);
        bars := bars + [VolumeBar(sample, isMinVolume)];
        nextIndex := index + 1;
      } else {
        EmittedSkip(bars, rows, minVolume, nextIndex, index);
      }
      index := index + 1;
    }
  }

  /** Bars of one window, as `volume_filter_with_time_window` builds them: the closed bars, then
      the open bar when rows remain (`WindowBarsPartition` says which bars these are). */
  method WindowBars(rows: seq<Trade>, minVolume: Option<int>) returns (bars: seq<Bar>)
    ensures bars == ScanBars(rows, minVolume, 0, 0)
  {
    var nextIndex;
    bars, nextIndex := ScanWindow(rows, minVolume);
    ScanEnd(bars, rows, minVolume, nextIndex);
    var totalRows := |rows|;
    if nextIndex < totalRows {
      var sample := rows[nextIndex..];
      bars := bars + [VolumeBar(sample, false)];
    }
  }

  /** The bars emitted so far, followed by the rest of the scan, are the bars of the whole scan. */
  ghost predicate Emitted(bars: seq<Bar>, rows: seq<Trade>, minVolume: Option<int>, nextIndex: int, index: int)
    requires 0 <= nextIndex <= index <= |rows|
  {
    bars + ScanBars(rows, minVolume, nextIndex, index) == ScanBars(rows, minVolume, 0, 0)
  }

  /** A row that does not close a bar emits nothing. */
  lemma EmittedSkip(bars: seq<Bar>, rows: seq<Trade>, minVolume: Option<int>, nextIndex: int, index: int)
    requires 0 <= nextIndex <= index < |rows| && !IsMinVolume(rows[index], minVolume)
    ensures Emitted(bars, rows, minVolume, nextIndex, index) ==> Emitted(bars, rows, minVolume, nextIndex, index + 1)
  {
    ScanSkip(rows, minVolume, nextIndex, index);
  }

  /** Emitting the bar a closing row ends, in front of the rest of the scan. */
  lemma ScanCloseAppend(bars: seq<Bar>, rows: seq<Trade>, minVolume: Option<int>, nextIndex: int, index: int)
    requires 0 <= nextIndex <= index < |rows| && IsMinVolume(rows[index], minVolume)
    ensures Emitted(bars, rows, minVolume, nextIndex, index)
            ==> Emitted(bars + [VolumeBar(rows[nextIndex..index + 1], true)], rows, minVolume, index + 1, index + 1)
  {
    ScanClose(rows, minVolume, nextIndex, index);
    ConcatAssoc(bars, [VolumeBar(rows[nextIndex..index + 1], true)], ScanBars(rows, minVolume, index + 1, index + 1));
  }

  /** After the last row the scan emits the open bar, if any. */
  lemma ScanEnd(bars: seq<Bar>, rows: seq<Trade>, minVolume: Option<int>, nextIndex: int)
    requires 0 <= nextIndex <= |rows|
    ensures nextIndex < |rows| ==> bars + ScanBars(rows, minVolume, nextIndex, |rows|) == bars + [VolumeBar(rows[nextIndex..], false)]
    ensures nextIndex == |rows| ==> bars + ScanBars(rows, minVolume, nextIndex, |rows|) == bars
  {
    if nextIndex == |rows| {
      assert bars + [] == bars;
    }
  }

  /** The row groups of all bars, window after window. */
  function WindowGroups(rows: seq<Trade>, minVolume: Option<int>, chunks: seq<Interval>): (groups: seq<seq<Trade>>)
    ensures forall i :: 0 <= i < |groups| ==> |groups[i]| > 0
    decreases |chunks|
  {
    if |chunks| == 0 then []
    else
      var c := chunks[0];
      var inWindow := FilterByTimestamp(rows, TradeTime, c.start, c.end, false);
      BarGroups(inWindow, minVolume) + WindowGroups(rows, minVolume, chunks[1..])
  }

  /** What `volume_filter_with_time_window` returns: the bars of every window, provided their
      total volume equals the input's (the source asserts this), else the integrity error. */
  function VolumeFilterResult(rows: seq<Trade>, minVolume: Option<int>, chunks: seq<Interval>): Result<seq<Bar>, IntegrityError>
  {
    var bars := BarsOf(WindowGroups(rows, minVolume, chunks), minVolume);
    if Sum(rows, TradeVolume) == Sum(bars, BarTotalVolume) then Success(bars) else Failure(VolumeNotClose)
  }

  /** What the window loop keeps: `done` are the groups of the windows before `w`, and the
      samples so far are their bars. */
  ghost predicate FilterLoopInv(rows: seq<Trade>, minVolume: Option<int>, chunks: seq<Interval>, w: int,
                                done: seq<seq<Trade>>, samples: seq<Bar>)
  {
    && 0 <= w <= |chunks|
    && (forall i :: 0 <= i < |done| ==> |done[i]| > 0)
    && WindowGroups(rows, minVolume, chunks) == done + WindowGroups(rows, minVolume, chunks[w..])
    && samples == BarsOf(done, minVolume)
  }

  lemma WindowStep(rows: seq<Trade>, minVolume: Option<int>, chunks: seq<Interval>, w: int,
                   done: seq<seq<Trade>>, samples: seq<Bar>, bars: seq<Bar>)
    requires FilterLoopInv(rows, minVolume, chunks, w, done, samples)
    requires w < |chunks|
    requires bars == ScanBars(FilterByTimestamp(rows, TradeTime, chunks[w].start, chunks[w].end, false), minVolume, 0, 0)
    ensures FilterLoopInv(rows, minVolume, chunks, w + 1,
                          done + BarGroups(FilterByTimestamp(rows, TradeTime, chunks[w].start, chunks[w].end, false), minVolume),
                          samples + bars)
  {
    var c := chunks[w];
    var windowGroups := BarGroups(FilterByTimestamp(rows, TradeTime, c.start, c.end, false), minVolume);
    WindowBarsPartition(FilterByTimestamp(rows, TradeTime, c.start, c.end, false), minVolume);
    assert chunks[w..][1..] == chunks[w + 1..];
    assert WindowGroups(rows, minVolume, chunks[w..]) == windowGroups + WindowGroups(rows, minVolume, chunks[w + 1..]);
    ConcatAssoc(done, windowGroups, WindowGroups(rows, minVolume, chunks[w + 1..]));
    BarsOfAppend(done, windowGroups, minVolume);
  }

  /** `volume_filter_with_time_window`. `chunks` are the windows the calendar iterator yields for
      `[first timestamp, last timestamp + 1 minute)`: `iter_window` when a window is given,
      `iter_once` otherwise. */
  method VolumeFilterWithTimeWindow(rows: seq<Trade>, minVolume: Option<int>, chunks: seq<Interval>)
    returns (result: Result<seq<Bar>, IntegrityError>)
    requires |rows| > 0
    ensures result == VolumeFilterResult(rows, minVolume, chunks)
  {
    var samples: seq<Bar> := [];
    ghost var done: seq<seq<Trade>> := [];
    var w := 0;
    assert chunks[0..] == chunks;
    while w < |chunks|
      invariant FilterLoopInv(rows, minVolume, chunks, w, done, samples)
    {
      var c := chunks[w];
      var df := FilterByTimestamp(rows, TradeTime, c.start, c.end, false);
      var bars: seq<Bar> := [];
      if |df| > 0 {
        bars := WindowBars(df, minVolume);
      }
      WindowStep(rows, minVolume, chunks, w, done, samples, bars);
      samples := samples + bars;
      done := done + BarGroups(df, minVolume);
      w := w + 1;
    }
    assert WindowGroups(rows, minVolume, chunks[w..]) == [];
    assert WindowGroups(rows, minVolume, chunks) == done;
    if Sum(rows, TradeVolume) == Sum(samples, BarTotalVolume) {
      result := Success(samples);
    } else {
      result := Failure(VolumeNotClose);
    }
  }

  lemma {:induction false} WindowGroupsFlatten(rows: seq<Trade>, minVolume: Option<int>, chunks: seq<Interval>)
    ensures Flatten(WindowGroups(rows, minVolume, chunks)) == Flatten(ChunkRows(rows, TradeTime, chunks))
    decreases |chunks|
  {
    if |chunks| > 0 {
      var c := chunks[0];
      var inWindow := FilterByTimestamp(rows, TradeTime, c.start, c.end, false);
      FlattenAppend(BarGroups(inWindow, minVolume), WindowGroups(rows, minVolume, chunks[1..]));
      BarGroupsPartition(inWindow, minVolume);
      WindowGroupsFlatten(rows, minVolume, chunks[1..]);
    }
  }

  /** On time-ordered rows and windows that tile `[first, last + 1 minute)` or more, no row is
      dropped or repeated, rows stay in order, and the volume assertion holds. */
  lemma VolumeFilterConserves(rows: seq<Trade>, minVolume: Option<int>, chunks: seq<Interval>)
    requires |rows| > 0 && Sorted(rows, TradeTime)
    requires Tiling(chunks) && |chunks| > 0
    requires chunks[0].start <= rows[0].timestamp && Last(rows).timestamp + Minute <= Last(chunks).end
    ensures Flatten(WindowGroups(rows, minVolume, chunks)) == rows
    ensures VolumeFilterResult(rows, minVolume, chunks).Success?
  {
    forall i | 0 <= i < |rows|
      ensures chunks[0].start <= rows[i].timestamp < Last(chunks).end
    {
      assert TradeTime(rows[0]) <= TradeTime(rows[i]) <= TradeTime(Last(rows));
    }
    ChunksReassemble(rows, TradeTime, chunks);
    WindowGroupsFlatten(rows, minVolume, chunks);
    BarsConserve(WindowGroups(rows, minVolume, chunks), minVolume);
  }
}
