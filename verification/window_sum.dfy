/** Sums of attributes per time window (quant_tick/lib/aggregate.py, `aggregate_sum`). */
module WindowSum {
  import opened Common
  import opened Windows

  /** The `attrs` argument: absent, one column name, or a list of names. */
  datatype Attrs = NoAttrs | OneAttr(name: string) | AttrList(names: seq<string>)

  function AttrNames(attrs: Attrs): seq<string>
  {
    match attrs
    case NoAttrs => []
    case OneAttr(name) => [name]
    case AttrList(names) => names
  }

  datatype SumRow = SumRow(timestamp: int, values: map<string, int>)

  /** One output row: the window's start and the sum of each requested column. */
  datatype Sample = Sample(timestamp: int, sums: map<string, int>)

  function RowTime(r: SumRow): int
  {
    r.timestamp
  }

  function ValueOf(name: string): SumRow -> int
  {
    (r: SumRow) => if name in r.values then r.values[name] else 0
  }

  function SampleValueOf(name: string): Sample -> int
  {
    (s: Sample) => if name in s.sums then s.sums[name] else 0
  }

  function WindowRows(rows: seq<SumRow>, c: Interval): seq<SumRow>
  {
    FilterByTimestamp(rows, RowTime, c.start, c.end, false)
  }

  /** The sample of one window: each requested column summed over the window's rows, which is
      zero for a window without rows. */
  function WindowSample(rows: seq<SumRow>, names: seq<string>, c: Interval): Sample
  {
    Sample(c.start, map n | n in names :: Sum(WindowRows(rows, c), ValueOf(n)))
  }

  /** The loop over windows as written: a sample is appended only when its window has rows. */
  function SparseSamples(rows: seq<SumRow>, names: seq<string>, chunks: seq<Interval>): seq<Sample>
    decreases |chunks|
  {
    if |chunks| == 0 then []
    else
      var rest := SparseSamples(rows, names, chunks[1..]);
      if |WindowRows(rows, chunks[0])| > 0 then [WindowSample(rows, names, chunks[0])] + rest else rest
  }

  /** `aggregate_sum` as written; `chunks` are the windows `iter_window` yields from the first
      row's timestamp to the last row's timestamp plus one window. */
  function AggregateSum(rows: seq<SumRow>, attrs: Attrs, chunks: seq<Interval>): seq<Sample>
  {
    if |rows| == 0 then [] else SparseSamples(rows, AttrNames(attrs), chunks)
  }

  /** The evidently intended `aggregate_sum`: one sample per window, empty windows included. */
  function DenseSamples(rows: seq<SumRow>, names: seq<string>, chunks: seq<Interval>): (r: seq<Sample>)
    ensures |r| == |chunks|
    decreases |chunks|
  {
    if |chunks| == 0 then [] else [WindowSample(rows, names, chunks[0])] + DenseSamples(rows, names, chunks[1..])
  }

  function AggregateSumDense(rows: seq<SumRow>, attrs: Attrs, chunks: seq<Interval>): seq<Sample>
  {
    if |rows| == 0 then [] else DenseSamples(rows, AttrNames(attrs), chunks)
  }

  /** The dense series has one sample per window, stamped with the window's start, carrying
      each requested column summed over that window's rows (zero when it has none). */
  lemma {:induction false} DenseSamplesSpec(rows: seq<SumRow>, names: seq<string>, chunks: seq<Interval>)
    ensures var r := DenseSamples(rows, names, chunks);
      && |r| == |chunks|
      && (forall i :: 0 <= i < |r| ==> r[i].timestamp == chunks[i].start)
      && (forall i, n :: 0 <= i < |r| && n in names ==>
            n in r[i].sums && r[i].sums[n] == Sum(ChunkRows(rows, RowTime, chunks)[i], ValueOf(n)))
      && (forall i, n :: 0 <= i < |r| && n in names && |WindowRows(rows, chunks[i])| == 0 ==> r[i].sums[n] == 0)
    decreases |chunks|
  {
    if |chunks| > 0 {
      DenseSamplesSpec(rows, names, chunks[1..]);
      var r := DenseSamples(rows, names, chunks);
      var groups := ChunkRows(rows, RowTime, chunks);
      forall i | 0 < i < |r|
        ensures r[i] == DenseSamples(rows, names, chunks[1..])[i - 1]
        ensures chunks[i] == chunks[1..][i - 1] && groups[i] == ChunkRows(rows, RowTime, chunks[1..])[i - 1]
      {
      }
    }
  }

  /** The windows that hold at least one row, in order. */
  function NonEmptyWindows(rows: seq<SumRow>, chunks: seq<Interval>): (r: seq<Interval>)
    ensures |r| <= |chunks|
    ensures forall i :: 0 <= i < |r| ==> r[i] in chunks && |WindowRows(rows, r[i])| > 0
    decreases |chunks|
  {
    if |chunks| == 0 then []
    else
      var rest := NonEmptyWindows(rows, chunks[1..]);
      if |WindowRows(rows, chunks[0])| > 0 then [chunks[0]] + rest else rest
  }

  /** `aggregate_sum` as written is the dense series with the empty windows dropped: the
      zero-initialised columns never reach the output. */
  lemma {:induction false} SparseIsDenseOfNonEmpty(rows: seq<SumRow>, names: seq<string>, chunks: seq<Interval>)
    ensures SparseSamples(rows, names, chunks) == DenseSamples(rows, names, NonEmptyWindows(rows, chunks))
    decreases |chunks|
  {
    if |chunks| > 0 {
      SparseIsDenseOfNonEmpty(rows, names, chunks[1..]);
      var rest := NonEmptyWindows(rows, chunks[1..]);
      if |WindowRows(rows, chunks[0])| > 0 {
        TailOfCons(chunks[0], rest);
      }
    }
  }

  /** Skipping empty windows loses no mass: the sparse series sums to the dense one. */
  lemma {:induction false} SparseDenseSameTotal(rows: seq<SumRow>, names: seq<string>, chunks: seq<Interval>, n: string)
    ensures Sum(SparseSamples(rows, names, chunks), SampleValueOf(n)) == Sum(DenseSamples(rows, names, chunks), SampleValueOf(n))
    decreases |chunks|
  {
    if |chunks| > 0 {
      SparseDenseSameTotal(rows, names, chunks[1..], n);
      var c := chunks[0];
      var w := WindowSample(rows, names, c);
      var dense := DenseSamples(rows, names, chunks);
      assert dense[1..] == DenseSamples(rows, names, chunks[1..]);
      if |WindowRows(rows, c)| > 0 {
        var sparse := SparseSamples(rows, names, chunks);
        assert sparse[1..] == SparseSamples(rows, names, chunks[1..]);
      } else {
        assert Sum(WindowRows(rows, c), ValueOf(n)) == 0;
        assert SampleValueOf(n)(w) == 0;
      }
    }
  }

  /** The dense series conserves every requested column when the windows tile the span of a
      sorted frame. */
  lemma DenseConserves(rows: seq<SumRow>, names: seq<string>, chunks: seq<Interval>, n: string)
    requires Sorted(rows, RowTime)
    requires Tiling(chunks) && |chunks| > 0
    requires forall i :: 0 <= i < |rows| ==> chunks[0].start <= rows[i].timestamp < Last(chunks).end
    requires n in names
    ensures Sum(DenseSamples(rows, names, chunks), SampleValueOf(n)) == Sum(rows, ValueOf(n))
  {
    var r := DenseSamples(rows, names, chunks);
    var groups := ChunkRows(rows, RowTime, chunks);
    DenseSamplesSpec(rows, names, chunks);
    forall i | 0 <= i < |r|
      ensures SampleValueOf(n)(r[i]) == Sum(groups[i], ValueOf(n))
    {
    }
    SumOverGroups(r, SampleValueOf(n), groups, ValueOf(n));
    ChunksReassemble(rows, RowTime, chunks);
  }

  /** `aggregate_sum` as written also conserves every requested column. */
  lemma AggregateSumConserves(rows: seq<SumRow>, attrs: Attrs, chunks: seq<Interval>, n: string)
    requires Sorted(rows, RowTime)
    requires Tiling(chunks) && |chunks| > 0
    requires forall i :: 0 <= i < |rows| ==> chunks[0].start <= rows[i].timestamp < Last(chunks).end
    requires n in AttrNames(attrs)
    ensures Sum(AggregateSum(rows, attrs, chunks), SampleValueOf(n)) == Sum(rows, ValueOf(n))
  {
    if |rows| > 0 {
      SparseDenseSameTotal(rows, AttrNames(attrs), chunks, n);
      DenseConserves(rows, AttrNames(attrs), chunks, n);
    }
  }

  /** `df[attr]` raises `KeyError` for a column the frame does not have. */
  datatype SumError = MissingColumn(name: string)

  /** Every row carries every requested column. A frame's columns are the same for all of its
      rows, so a name one row lacks is a column the frame lacks. */
  predicate ColumnsPresent(rows: seq<SumRow>, names: seq<string>)
  {
    forall i, n :: 0 <= i < |rows| && n in names ==> n in rows[i].values
  }

  /** The first requested name that some row lacks, in the order `attrs` lists them. */
  function FirstMissing(rows: seq<SumRow>, names: seq<string>): Option<string>
    decreases |names|
  {
    if |names| == 0 then None
    else if exists i :: 0 <= i < |rows| && names[0] !in rows[i].values then Some(names[0])
    else FirstMissing(rows, names[1..])
  }

  /** No name is missing exactly when every requested column is present; a missing name is a
      requested one that some row lacks. */
  lemma {:induction false} FirstMissingSpec(rows: seq<SumRow>, names: seq<string>)
    ensures FirstMissing(rows, names).None? <==> ColumnsPresent(rows, names)
    ensures FirstMissing(rows, names).Some? ==>
      var n := FirstMissing(rows, names).value;
      n in names && exists i :: 0 <= i < |rows| && n !in rows[i].values
    decreases |names|
  {
    if |names| > 0 {
      FirstMissingSpec(rows, names[1..]);
      if exists i :: 0 <= i < |rows| && names[0] !in rows[i].values {
        assert names[0] in names;
      } else {
        assert forall n :: n in names[1..] ==> n in names;
        forall i, n | 0 <= i < |rows| && n in names && ColumnsPresent(rows, names[1..])
          ensures n in rows[i].values
        {
          if n != names[0] {
            assert n in names[1..];
          }
        }
      }
    }
  }

  /** `aggregate_sum` with its error path: the first window holding rows sums every requested
      column, so a requested column the frame lacks raises there; without such a window, or
      with every column present, the samples are those of `AggregateSum`. */
  function AggregateSumResult(rows: seq<SumRow>, attrs: Attrs, chunks: seq<Interval>): Result<seq<Sample>, SumError>
  {
    var missing := FirstMissing(rows, AttrNames(attrs));
    if |rows| > 0 && |NonEmptyWindows(rows, chunks)| > 0 && missing.Some? then Failure(MissingColumn(missing.value))
    else Success(AggregateSum(rows, attrs, chunks))
  }

  /** The call fails exactly when some window holds rows and a requested column is missing,
      naming a requested column some row lacks; otherwise it returns the samples as written. */
  lemma AggregateSumResultSpec(rows: seq<SumRow>, attrs: Attrs, chunks: seq<Interval>)
    ensures var r := AggregateSumResult(rows, attrs, chunks);
      && (r.Failure? <==> |rows| > 0 && |NonEmptyWindows(rows, chunks)| > 0 && !ColumnsPresent(rows, AttrNames(attrs)))
      && (r.Failure? ==> r.error.name in AttrNames(attrs) && exists i :: 0 <= i < |rows| && r.error.name !in rows[i].values)
      && (r.Success? ==> r.value == AggregateSum(rows, attrs, chunks))
  {
    FirstMissingSpec(rows, AttrNames(attrs));
  }

  /** When the call succeeds on a sorted frame whose windows tile its span, every requested
      column is present in every row and its total is conserved. */
  lemma AggregateSumResultConserves(rows: seq<SumRow>, attrs: Attrs, chunks: seq<Interval>, n: string)
    requires Sorted(rows, RowTime)
    requires Tiling(chunks) && |chunks| > 0
    requires forall i :: 0 <= i < |rows| ==> chunks[0].start <= rows[i].timestamp < Last(chunks).end
    requires n in AttrNames(attrs)
    ensures var r := AggregateSumResult(rows, attrs, chunks);
      && (r.Success? ==> forall i :: 0 <= i < |rows| ==> n in rows[i].values)
      && (r.Success? ==> Sum(r.value, SampleValueOf(n)) == Sum(rows, ValueOf(n)))
  {
    AggregateSumResultSpec(rows, attrs, chunks);
    AggregateSumConserves(rows, attrs, chunks, n);
    if |rows| > 0 {
      NonEmptyFirstRow(rows, chunks);
    }
  }

  /** Under the covering windows, the window holding the first row is among those with rows. */
  lemma NonEmptyFirstRow(rows: seq<SumRow>, chunks: seq<Interval>)
    requires Sorted(rows, RowTime)
    requires Tiling(chunks) && |chunks| > 0 && |rows| > 0
    requires forall i :: 0 <= i < |rows| ==> chunks[0].start <= rows[i].timestamp < Last(chunks).end
    ensures |NonEmptyWindows(rows, chunks)| > 0
  {
    ChunksReassemble(rows, RowTime, chunks);
    NonEmptyWindowsOfCovered(rows, chunks);
  }

  /** Windows that share out at least one row include one that holds a row. */
  lemma {:induction false} NonEmptyWindowsOfCovered(rows: seq<SumRow>, chunks: seq<Interval>)
    requires |Flatten(ChunkRows(rows, RowTime, chunks))| > 0
    ensures |NonEmptyWindows(rows, chunks)| > 0
    decreases |chunks|
  {
    var groups := ChunkRows(rows, RowTime, chunks);
    assert |chunks| > 0;
    assert groups[1..] == ChunkRows(rows, RowTime, chunks[1..]);
    if |WindowRows(rows, chunks[0])| == 0 {
      NonEmptyWindowsOfCovered(rows, chunks[1..]);
    }
  }

  /** Three one-minute windows whose middle one is empty: the code as written emits two samples,
      the dense series three, the middle one zero. */
  lemma GapWindowExample()
    ensures var rows := [SumRow(0, map["volume" := 1]), SumRow(120, map["volume" := 2])];
      var chunks := [Interval(0, 60), Interval(60, 120), Interval(120, 180)];
      var sparse := AggregateSum(rows, OneAttr("volume"), chunks);
      var dense := AggregateSumDense(rows, OneAttr("volume"), chunks);
      && |sparse| == 2 && sparse[0].timestamp == 0 && sparse[1].timestamp == 120
      && |dense| == 3 && dense[1].timestamp == 60 && dense[1].sums["volume"] == 0
  {
    var rows := [SumRow(0, map["volume" := 1]), SumRow(120, map["volume" := 2])];
    var chunks := [Interval(0, 60), Interval(60, 120), Interval(120, 180)];
    assert WindowRows(rows, chunks[0]) == [rows[0]];
    assert WindowRows(rows, chunks[1]) == [];
    assert WindowRows(rows, chunks[2]) == [rows[1]];
    assert chunks[1..][1..] == [chunks[2]];
    assert chunks[1..][1..][1..] == [];
  }
}
