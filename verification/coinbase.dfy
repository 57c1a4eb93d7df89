/** The Coinbase candle helpers (quant_tick/exchanges/coinbase/candles.py): request URLs, the
    pagination id, and the positional mapping of API rows to OHLC records. */
module Coinbase {
  import opened Common

  /** Decimal text of an integer, as an f-string renders it. */
  function IntToString(n: int): (s: string)
  {
    if n < 0 then "-" + NatToString(-n) else NatToString(n)
  }

  function Digit(d: int): char
    requires 0 <= d < 10
  {
    ('0' as int + d) as char
  }

  predicate IsDigit(c: char)
  {
    '0' <= c <= '9'
  }

  /** Decimal digits of a natural number, most significant first, without leading zeros. */
  function NatToString(n: nat): (s: string)
    ensures |s| > 0
    ensures forall i :: 0 <= i < |s| ==> IsDigit(s[i])
    ensures |s| > 1 ==> s[0] != '0'
    decreases n
  {
    if n < 10 then [Digit(n)] else NatToString(n / 10) + [Digit(n % 10)]
  }

  /** The value of a string of decimal digits. */
  function ParseDigits(s: string): int
    requires forall i :: 0 <= i < |s| ==> IsDigit(s[i])
    decreases |s|
  {
    if |s| == 0 then 0 else 10 * ParseDigits(s[..|s| - 1]) + (s[|s| - 1] as int - '0' as int)
  }

  /** Reading the digits back gives the number. */
  lemma {:induction false} NatToStringRoundTrip(n: nat)
    ensures ParseDigits(NatToString(n)) == n
    decreases n
  {
    var s := NatToString(n);
    if n >= 10 {
      NatToStringRoundTrip(n / 10);
      assert s[..|s| - 1] == NatToString(n / 10);
    }
  }

  /** The base URL of `coinbase_candles`: the products endpoint for the symbol, with the
      granularity in seconds as the first query parameter. */
  function BaseUrl(apiUrl: string, apiSymbol: string, granularity: int): string
  {
    apiUrl + "/products/" + apiSymbol + "/candles?granularity=" + IntToString(granularity)
  }

  /** The base URL ends with the granularity's digits, which read back as the granularity. */
  lemma BaseUrlGranularity(apiUrl: string, apiSymbol: string, granularity: nat)
    ensures var u := BaseUrl(apiUrl, apiSymbol, granularity);
      var prefix := apiUrl + "/products/" + apiSymbol + "/candles?granularity=";
      && u[..|prefix|] == prefix
      && (forall i :: |prefix| <= i < |u| ==> IsDigit(u[i]))
      && ParseDigits(u[|prefix|..]) == granularity
  {
    var prefix := apiUrl + "/products/" + apiSymbol + "/candles?granularity=";
    var u := BaseUrl(apiUrl, apiSymbol, granularity);
    assert u == prefix + NatToString(granularity);
    assert u[|prefix|..] == NatToString(granularity);
    NatToStringRoundTrip(granularity);
  }

  /** Python truthiness of the optional pagination id: present and not empty. */
  predicate Truthy(id: Option<string>)
  {
    id.Some? && |id.value| > 0
  }

  /** `get_coinbase_candle_url`: the start time, then the end time when there is a pagination id.
      `start` is the formatted start time. */
  function CandleUrl(url: string, start: string, paginationId: Option<string>): string
  {
    var withStart := url + "&start=" + start;
    if Truthy(paginationId) then withStart + "&end=" + paginationId.value else withStart
  }

  /** The URL extends the base URL with `&start=`; it carries `&end=` and the pagination id
      after that exactly when the pagination id is truthy, and nothing else otherwise. */
  lemma CandleUrlShape(url: string, start: string, paginationId: Option<string>)
    ensures var u := CandleUrl(url, start, paginationId);
      var withStart := url + "&start=" + start;
      && u[..|withStart|] == withStart
      && (Truthy(paginationId) ==> u[|withStart|..] == "&end=" + paginationId.value)
      && (!Truthy(paginationId) ==> u == withStart)
      && (|u| > |withStart| <==> Truthy(paginationId))
  {
  }

  /** One row of the candles endpoint: `[time, low, high, open, close, volume]`. */
  type ApiRow = seq<real>

  /** `get_coinbase_candle_pagination_id`: the formatted time of the last row, or nothing when
      there are no rows. `format` is `datetime.fromtimestamp(...).isoformat()`. */
  function PaginationId(timestamp: int, lastData: Option<seq<ApiRow>>, data: Option<seq<ApiRow>>,
                        format: real -> string): Option<string>
    requires data.Some? && |data.value| > 0 ==> |Last(data.value)| > 0
  {
    var rows := if data.Some? then data.value else [];
    if |rows| > 0 then Some(format(Last(rows)[0])) else None
  }

  /** No rows, no pagination id; otherwise the id depends only on field 0 of the last row,
      whatever the timestamp and the previous page. */
  lemma PaginationIdDependsOnLastTime(t1: int, t2: int, last1: Option<seq<ApiRow>>, last2: Option<seq<ApiRow>>,
                                      data1: Option<seq<ApiRow>>, data2: Option<seq<ApiRow>>, format: real -> string)
    requires data1.Some? && |data1.value| > 0 ==> |Last(data1.value)| > 0
    requires data2.Some? && |data2.value| > 0 ==> |Last(data2.value)| > 0
    ensures data1.None? || |data1.value| == 0 <==> PaginationId(t1, last1, data1, format).None?
    ensures data1.Some? && data2.Some? && |data1.value| > 0 && |data2.value| > 0
            && Last(data1.value)[0] == Last(data2.value)[0]
            ==> PaginationId(t1, last1, data1, format) == PaginationId(t2, last2, data2, format)
  {
  }

  /** `get_coinbase_candle_timestamp`: the row's time field, converted by `fromTimestamp`. */
  function CandleTimestamp(row: ApiRow, fromTimestamp: real -> int): int
    requires |row| > 0
  {
    fromTimestamp(row[0])
  }

  /** An OHLC record of `coinbase_candles`. */
  datatype Ohlc = Ohlc(timestamp: int, open: real, high: real, low: real, close: real, notional: real)

  /** The positional mapping of one row: time 0, low 1, high 2, open 3, close 4, notional 5. */
  function ToOhlc(row: ApiRow, fromTimestamp: real -> int): Ohlc
    requires |row| >= 6
  {
    Ohlc(fromTimestamp(row[0]), row[3], row[2], row[1], row[4], row[5])
  }

  /** The row the endpoint would have sent for a record, given its time field. */
  function ToApiRow(time: real, c: Ohlc): ApiRow
  {
    [time, c.low, c.high, c.open, c.close, c.notional]
  }

  /** The mapping loses nothing: a six-field row is rebuilt from its record and its time field. */
  lemma ToOhlcRoundTrip(row: ApiRow, fromTimestamp: real -> int)
    requires |row| == 6
    ensures ToApiRow(row[0], ToOhlc(row, fromTimestamp)) == row
  {
  }

  predicate AllWide(rows: seq<ApiRow>)
  {
    forall i :: 0 <= i < |rows| ==> |rows[i]| >= 6
  }

  /** The list comprehension of `coinbase_candles`: one record per row, in order. */
  function MapRows(rows: seq<ApiRow>, fromTimestamp: real -> int): (r: seq<Ohlc>)
    requires AllWide(rows)
    ensures |r| == |rows|
    decreases |rows|
  {
    if |rows| == 0 then [] else [ToOhlc(rows[0], fromTimestamp)] + MapRows(rows[1..], fromTimestamp)
  }

  /** Record `i` comes from row `i`, so length and order are kept and each row's fields land in
      the right place. */
  lemma {:induction false} MapRowsPositional(rows: seq<ApiRow>, fromTimestamp: real -> int, i: int)
    requires AllWide(rows) && 0 <= i < |rows|
    ensures var c := MapRows(rows, fromTimestamp)[i];
      && c.timestamp == CandleTimestamp(rows[i], fromTimestamp)
      && c.low == rows[i][1] && c.high == rows[i][2] && c.open == rows[i][3]
      && c.close == rows[i][4] && c.notional == rows[i][5]
    decreases i
  {
    if i > 0 {
      MapRowsPositional(rows[1..], fromTimestamp, i - 1);
    }
  }

  /** The timestamps `iter_api` reads through `get_coinbase_candle_timestamp` are the
      timestamps of the records the rows become: the two conversions of field 0 agree. */
  lemma CandleTimestampAgrees(rows: seq<ApiRow>, fromTimestamp: real -> int)
    requires AllWide(rows)
    ensures forall i :: 0 <= i < |rows| ==>
      MapRows(rows, fromTimestamp)[i].timestamp == CandleTimestamp(rows[i], fromTimestamp)
  {
    forall i | 0 <= i < |rows|
      ensures MapRows(rows, fromTimestamp)[i].timestamp == CandleTimestamp(rows[i], fromTimestamp)
    {
      MapRowsPositional(rows, fromTimestamp, i);
    }
  }

  /** Mapping a concatenation of pages maps each page in turn. */
  lemma {:induction false} MapRowsAppend(a: seq<ApiRow>, b: seq<ApiRow>, fromTimestamp: real -> int)
    requires AllWide(a) && AllWide(b)
    ensures AllWide(a + b)
    ensures MapRows(a + b, fromTimestamp) == MapRows(a, fromTimestamp) + MapRows(b, fromTimestamp)
    decreases |a|
  {
    if |a| > 0 {
      assert (a + b)[1..] == a[1..] + b;
      MapRowsAppend(a[1..], b, fromTimestamp);
      ConcatAssoc([ToOhlc(a[0], fromTimestamp)], MapRows(a[1..], fromTimestamp), MapRows(b, fromTimestamp));
    } else {
      assert a + b == b;
    }
  }
}
