/** Clustering of trades into maximal runs of one side (quant_tick/lib/aggregate.py,
    `cluster_trades_with_time_window` and `cluster_trades`). */
module Clustering {
  import opened Common
  import opened Runs

  /** The summable columns a cluster looks for, in the order the source lists them. */
  datatype Attr =
    | Volume | TotalBuyVolume | TotalVolume
    | Notional | TotalBuyNotional | TotalNotional
    | Ticks | TotalBuyTicks | TotalTicks

  const AllAttrs: set<Attr> :=
    {Volume, TotalBuyVolume, TotalVolume, Notional, TotalBuyNotional, TotalNotional, Ticks, TotalBuyTicks, TotalTicks}

  /** An input row: its time, its side, and whichever summable columns it carries. */
  datatype ClusterRow = ClusterRow(timestamp: int, tickRule: int, values: map<Attr, int>)

  /** One cluster: first row's time and side, the span in seconds, and the sums of the columns
      that every row of the cluster carries. */
  datatype Cluster = Cluster(timestamp: int, seconds: int, tickRule: int, sums: map<Attr, int>)

  function TickRuleOf(r: ClusterRow): int
  {
    r.tickRule
  }

  /** The value of column `a` in a row, zero when the row lacks it. */
  function AttrValue(r: ClusterRow, a: Attr): int
  {
    if a in r.values then r.values[a] else 0
  }

  function AttrOf(a: Attr): ClusterRow -> int
  {
    (r: ClusterRow) => AttrValue(r, a)
  }

  /** The value of column `a` in a cluster, zero when the cluster lacks it. */
  function ClusterValueOf(a: Attr): Cluster -> int
  {
    (c: Cluster) => if a in c.sums then c.sums[a] else 0
  }

  predicate AllHave(run: seq<ClusterRow>, a: Attr)
  {
    forall i :: 0 <= i < |run| ==> a in run[i].values
  }

  /** `cluster_trades` on one run. */
  function ClusterOf(run: seq<ClusterRow>): Cluster
    requires |run| > 0
  {
    var sums := map a | a in AllAttrs && AllHave(run, a) :: Sum(run, AttrOf(a));
    Cluster(run[0].timestamp, Last(run).timestamp - run[0].timestamp, run[0].tickRule, sums)
  }

  /** A cluster sums exactly the columns that every row of its run carries. */
  lemma ClusterOfSpec(run: seq<ClusterRow>, a: Attr)
    requires |run| > 0
    ensures var c := ClusterOf(run);
      && c.timestamp == run[0].timestamp && c.tickRule == run[0].tickRule
      && c.seconds == Last(run).timestamp - run[0].timestamp
      && (a in c.sums <==> AllHave(run, a))
      && (a in c.sums ==> c.sums[a] == Sum(run, AttrOf(a)))
  {
    assert a in AllAttrs;
  }

  /** `cluster_trades`: one cluster per run, in order. */
  function ClusterTrades(runs: seq<seq<ClusterRow>>): (clusters: seq<Cluster>)
    requires forall i :: 0 <= i < |runs| ==> |runs[i]| > 0
    ensures |clusters| == |runs|
    ensures forall i :: 0 <= i < |runs| ==> clusters[i] == ClusterOf(runs[i])
    decreases |runs|
  {
    if |runs| == 0 then []
    else
      var rest := ClusterTrades(runs[1..]);
      assert forall i :: 1 <= i < |runs| ==> runs[i] == runs[1..][i - 1];
      [ClusterOf(runs[0])] + rest
  }

  /** The state of the grouping loop after `index` rows: nothing seen yet, or an open run
      `rows[start..index]` whose side is `direction`, with `data` and the runs still to come
      making up `whole`. */
  ghost predicate GroupingState(rows: seq<ClusterRow>, index: int, start: int, direction: Option<int>,
                                d: seq<ClusterRow>, data: seq<seq<ClusterRow>>, whole: seq<seq<ClusterRow>>)
  {
    && 0 <= index <= |rows|
    && (index == 0 ==> start == 0 && direction.None? && d == [] && data == [])
    && (direction.None? ==> index == 0)
    && (index > 0 ==>
          && SameKey(rows, TickRuleOf, start, index)
          && direction == Some(rows[start].tickRule)
          && d == rows[start..index]
          && data + ScanRuns(rows, TickRuleOf, start, index) == whole)
  }

  lemma FirstRowStep(rows: seq<ClusterRow>, index: int, start: int, direction: Option<int>,
                     d: seq<ClusterRow>, data: seq<seq<ClusterRow>>, whole: seq<seq<ClusterRow>>)
    requires GroupingState(rows, index, start, direction, d, data, whole)
    requires index < |rows| && direction.None? && whole == ScanRuns(rows, TickRuleOf, 0, 1)
    ensures GroupingState(rows, index + 1, start, Some(rows[index].tickRule), d + [rows[index]], data, whole)
  {
    assert index == 0 && start == 0 && d == [] && data == [];
    assert d + [rows[index]] == rows[0..1];
    assert data + ScanRuns(rows, TickRuleOf, 0, 1) == whole;
    assert SameKey(rows, TickRuleOf, 0, 1);
  }

  lemma SameSideStep(rows: seq<ClusterRow>, index: int, start: int, direction: Option<int>,
                     d: seq<ClusterRow>, data: seq<seq<ClusterRow>>, whole: seq<seq<ClusterRow>>)
    requires GroupingState(rows, index, start, direction, d, data, whole)
    requires 0 < index < |rows| && direction.Some? && rows[index].tickRule == direction.value
    ensures GroupingState(rows, index + 1, start, direction, d + [rows[index]], data, whole)
  {
    SkipRunStep(rows, TickRuleOf, start, index);
    assert rows[start..index] + [rows[index]] == rows[start..index + 1];
  }

  lemma NewSideStep(rows: seq<ClusterRow>, index: int, start: int, direction: Option<int>,
                    d: seq<ClusterRow>, data: seq<seq<ClusterRow>>, whole: seq<seq<ClusterRow>>)
    requires GroupingState(rows, index, start, direction, d, data, whole)
    requires 0 < index < |rows| && direction.Some? && rows[index].tickRule != direction.value
    ensures GroupingState(rows, index + 1, index, Some(rows[index].tickRule), [rows[index]], data + [d], whole)
  {
    ConcatAssoc(data, [d], ScanRuns(rows, TickRuleOf, index, index + 1));
    assert [rows[index]] == rows[index..index + 1];
  }

  lemma GroupingDone(rows: seq<ClusterRow>, start: int, direction: Option<int>,
                     d: seq<ClusterRow>, data: seq<seq<ClusterRow>>, whole: seq<seq<ClusterRow>>)
    requires GroupingState(rows, |rows|, start, direction, d, data, whole)
    requires |rows| > 0 ==> whole == ScanRuns(rows, TickRuleOf, 0, 1)
    ensures (if |d| > 0 then data + [d] else data) == Split(rows, TickRuleOf)
  {
    if |rows| > 0 {
      assert SameKey(rows, TickRuleOf, 0, 1);
      ScanRunsSplit(rows, TickRuleOf, 0, 1);
      assert rows[0..] == rows;
      assert rows[start..] == rows[start..|rows|];
    }
  }

  /** One pass of the grouping loop over row `index`: the first row opens a run, a row on the
      run's side extends it, and a row on the other side closes it and opens the next. */
  method GroupStep(rows: seq<ClusterRow>, index: int, direction: Option<int>, d: seq<ClusterRow>,
                   data: seq<seq<ClusterRow>>, ghost start: int, ghost whole: seq<seq<ClusterRow>>)
    returns (direction': Option<int>, d': seq<ClusterRow>, data': seq<seq<ClusterRow>>, ghost start': int)
    requires GroupingState(rows, index, start, direction, d, data, whole) && index < |rows|
    requires whole == ScanRuns(rows, TickRuleOf, 0, 1)
    ensures GroupingState(rows, index + 1, start', direction', d', data', whole)
  {
    var row := rows[index];
    start' := start;
    if direction.None? {
      FirstRowStep(rows, index, start, direction, d, data, whole);
      direction', d', data' := Some(row.tickRule), d + [row], data;
    } else if row.tickRule == direction.value {
      SameSideStep(rows, index, start, direction, d, data, whole);
      direction', d', data' := direction, d + [row], data;
    } else {
      NewSideStep(rows, index, start, direction, d, data, whole);
      direction', d', data' := Some(row.tickRule), [row], data + [d];
      start' := index;
    }
  }

  /** The grouping loop of `cluster_trades_with_time_window`: maximal runs of one `tickRule`. */
  method GroupBySide(rows: seq<ClusterRow>) returns (data: seq<seq<ClusterRow>>)
    ensures data == Split(rows, TickRuleOf)
  {
    data := [];
    var d: seq<ClusterRow> := [];
    var direction: Option<int> := None;
    ghost var start := 0;
    ghost var whole := if |rows| > 0 then ScanRuns(rows, TickRuleOf, 0, 1) else [];
    var index := 0;
    // Compared with `true` so that the verifier keeps the state predicate whole instead of
    // checking each of its conjuncts separately.
    while index < |rows|
      invariant GroupingState(rows, index, start, direction, d, data, whole) == true
    {
      direction, d, data, start := GroupStep(rows, index, direction, d, data, start, whole);
      index := index + 1;
    }
    GroupingDone(rows, start, direction, d, data, whole);
    if |d| > 0 {
      data := data + [d];
    }
  }

  /** `cluster_trades_with_time_window`: the clusters of the maximal runs of one side. The
      `window` argument of the source is unused, so it is not a parameter here. */
  method ClusterTradesWithTimeWindow(rows: seq<ClusterRow>) returns (clusters: seq<Cluster>)
    ensures clusters == ClusterTrades(Split(rows, TickRuleOf))
  {
    var data := GroupBySide(rows);
    clusters := ClusterTrades(data);
  }

  /** The runs give the rows back when concatenated, each run holds one side, and neighbouring
      clusters are on opposite sides. */
  lemma ClustersAlternate(rows: seq<ClusterRow>)
    ensures Flatten(Split(rows, TickRuleOf)) == rows
    ensures var runs := Split(rows, TickRuleOf);
      forall i, j :: 0 <= i < |runs| && 0 <= j < |runs[i]| ==> runs[i][j].tickRule == ClusterTrades(runs)[i].tickRule
    ensures var clusters := ClusterTrades(Split(rows, TickRuleOf));
      forall i :: 0 < i < |clusters| ==> clusters[i - 1].tickRule != clusters[i].tickRule
  {
    var runs := Split(rows, TickRuleOf);
    SplitIsDecomposition(rows, TickRuleOf);
    var clusters := ClusterTrades(runs);
    forall i, j | 0 <= i < |runs| && 0 <= j < |runs[i]|
      ensures runs[i][j].tickRule == clusters[i].tickRule
    {
      assert TickRuleOf(runs[i][j]) == TickRuleOf(runs[i][0]);
    }
    forall i | 0 < i < |clusters|
      ensures clusters[i - 1].tickRule != clusters[i].tickRule
    {
      assert TickRuleOf(runs[i - 1][0]) != TickRuleOf(runs[i][0]);
    }
  }

  /** A column carried by every row is carried by every cluster, and the clusters' sums of it
      add up to the rows' total. */
  lemma ClustersConserve(rows: seq<ClusterRow>, a: Attr)
    requires AllHave(rows, a)
    ensures var clusters := ClusterTrades(Split(rows, TickRuleOf));
      && (forall i :: 0 <= i < |clusters| ==> a in clusters[i].sums)
      && Sum(clusters, ClusterValueOf(a)) == Sum(rows, AttrOf(a))
  {
    var runs := Split(rows, TickRuleOf);
    SplitIsDecomposition(rows, TickRuleOf);
    var clusters := ClusterTrades(runs);
    forall i | 0 <= i < |runs|
      ensures a in clusters[i].sums && ClusterValueOf(a)(clusters[i]) == Sum(runs[i], AttrOf(a))
    {
      forall j | 0 <= j < |runs[i]|
        ensures a in runs[i][j].values
      {
        FlattenMember(runs, i, j);
      }
      ClusterOfSpec(runs[i], a);
    }
    SumOverGroups(clusters, ClusterValueOf(a), runs, AttrOf(a));
  }

  /** Sides `[+1, +1, -1, +1]` give runs of sizes 2, 1 and 1. */
  lemma ClusterExample()
    ensures var rows := [ClusterRow(0, 1, map[]), ClusterRow(1, 1, map[]), ClusterRow(2, -1, map[]), ClusterRow(3, 1, map[])];
      var runs := Split(rows, TickRuleOf);
      |runs| == 3 && |runs[0]| == 2 && |runs[1]| == 1 && |runs[2]| == 1
  {
    var a, b, c, e := ClusterRow(0, 1, map[]), ClusterRow(1, 1, map[]), ClusterRow(2, -1, map[]), ClusterRow(3, 1, map[]);
    var rows := [a, b, c, e];
    var runs := [[a, b], [c], [e]];
    assert Flatten(runs) == [a, b] + Flatten([[c], [e]]);
    assert Flatten([[c], [e]]) == [c] + Flatten([[e]]);
    assert Flatten([[e]]) == [e] + Flatten([[e]][1..]);
    assert IsRunDecomposition(rows, runs, TickRuleOf);
    DecompositionUnique(rows, runs, TickRuleOf);
  }
}
