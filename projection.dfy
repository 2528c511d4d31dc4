/**
 * The data side of `plot_data`: the provider's column names are replaced in
 * place, the chart kind is checked, the x-axis labels are built from every row,
 * and the loop over Open, High, Low and Close coerces each column and drops the
 * rows where it is not numeric before taking that column's values. Because the
 * loop rebinds the frame after each drop, the dropping is cumulative.
 */
module Projection {
  import opened Wrappers
  import opened Timestamps
  import opened Frames
  import Validators

  datatype ChartKind = Line | Bar

  datatype PlotError = UnsupportedChartKind | MissingColumn(name: string)

  /** One `chart.add(title, values)`. */
  datatype Series = Series(title: string, values: seq<real>)

  /** What the chart is given: its kind, its x-axis labels and its series, in the order added. */
  datatype Chart = Chart(kind: ChartKind, labels: seq<string>, series: seq<Series>)

  /** `rename_dict`: the provider's column names and the names charted. */
  const ProviderNames: map<string, string> :=
    map["1. open" := "Open", "2. high" := "High", "3. low" := "Low", "4. close" := "Close"]

  /** The columns charted, in the order the loop visits them. */
  const PriceColumns: seq<string> := ["Open", "High", "Low", "Close"]

  /** The `chart_type` argument: "line" and "bar" are supported, nothing else. */
  function ChartKindOf(chartType: string): (k: Option<ChartKind>)
    ensures k == Some(Line) <==> chartType == "line"
    ensures k == Some(Bar) <==> chartType == "bar"
    ensures k.None? <==> chartType != "line" && chartType != "bar"
  {
    if chartType == "line" then Some(Line)
    else if chartType == "bar" then Some(Bar)
    else None
  }

  /** An x-axis label: date and time for the intraday series (selector 1), the date alone otherwise. */
  function AxisLabel(t: Timestamp, timeSeries: int): (text: string)
    ensures |text| == (if timeSeries == 1 then 19 else 10) && text[..10] == DateLabel(t)
    ensures timeSeries == 1 ==> text[10] == ' ' && ShowsTimeOfDay(text, t)
  {
    if timeSeries == 1 then DateTimeLabel(t) else DateLabel(t)
  }

  function Labels(rows: seq<Record>, timeSeries: int): (labels: seq<string>)
    ensures |labels| == |rows|
    ensures forall i :: 0 <= i < |rows| ==> labels[i] == AxisLabel(rows[i].ts, timeSeries)
  {
    seq(|rows|, i requires 0 <= i < |rows| => AxisLabel(rows[i].ts, timeSeries))
  }

  /** The position of the first column with this name; `df[name]` raises `KeyError` when there is none. */
  function IndexOf(columns: seq<string>, name: string): (r: Option<nat>)
    ensures r.Some? <==> name in columns
    ensures r.Some? ==> r.value < |columns| && columns[r.value] == name
  {
    if columns == [] then None
    else if columns[0] == name then Some(0)
    else match IndexOf(columns[1..], name)
      case Some(i) => Some(i + 1)
      case None => None
  }

  // ---- the pandas operations the loop performs ---------------------------------

  /** `df.dropna(subset=[col])` after coercion: the rows whose cell in column `j` is a number, in order. */
  function DropNonNumeric(rows: seq<Record>, j: nat): (r: seq<Record>)
    requires forall k :: 0 <= k < |rows| ==> j < |rows[k].cells|
    ensures |r| <= |rows|
    ensures forall x :: x in r ==> x in rows
    ensures forall k :: 0 <= k < |r| ==> j < |r[k].cells| && r[k].cells[j].Num?
    ensures forall x :: x in r <==> x in rows && j < |x.cells| && x.cells[j].Num?
  {
    if rows == [] then []
    else
      var rest := DropNonNumeric(rows[1..], j);
      assert forall x :: x in rest ==> x in rows;
      if rows[0].cells[j].Num? then [rows[0]] + rest else rest
  }

  /** `df[col].tolist()` on a column whose cells are all numbers. */
  function ColumnValues(rows: seq<Record>, j: nat): (values: seq<real>)
    requires forall k :: 0 <= k < |rows| ==> j < |rows[k].cells| && rows[k].cells[j].Num?
    ensures |values| == |rows|
  {
    if rows == [] then [] else [rows[0].cells[j].value] + ColumnValues(rows[1..], j)
  }

  // ---- the reference: which rows each series keeps ----------------------------

  /** The first `n` price columns are all present. */
  predicate HasColumnsThrough(columns: seq<string>, n: nat) {
    n <= 4 && forall m :: 0 <= m < n ==> PriceColumns[m] in columns
  }

  function CellOf(columns: seq<string>, row: Record, name: string): Cell
    requires name in columns && |row.cells| == |columns|
  {
    row.cells[IndexOf(columns, name).value]
  }

  /** The row is numeric in each of the first `n` price columns. */
  predicate NumericThrough(columns: seq<string>, row: Record, n: nat)
    requires HasColumnsThrough(columns, n) && |row.cells| == |columns|
    decreases n
  {
    n == 0 || (NumericThrough(columns, row, n - 1) && CellOf(columns, row, PriceColumns[n - 1]).Num?)
  }

  /** The rows numeric in each of the first `n` price columns, in order. */
  function KeptThrough(columns: seq<string>, rows: seq<Record>, n: nat): (r: seq<Record>)
    requires HasColumnsThrough(columns, n) && Rectangular(columns, rows)
    ensures Rectangular(columns, r)
  {
    if rows == [] then []
    else (if NumericThrough(columns, rows[0], n) then [rows[0]] else []) + KeptThrough(columns, rows[1..], n)
  }

  /**
   * The values series `k` should hold: column `k`'s value in every row that is numeric
   * in that column and in all the price columns before it.
   */
  function SeriesSpec(columns: seq<string>, rows: seq<Record>, k: nat): seq<real>
    requires k < 4 && HasColumnsThrough(columns, k + 1) && Rectangular(columns, rows)
  {
    if rows == [] then []
    else
      (if NumericThrough(columns, rows[0], k + 1) then [CellOf(columns, rows[0], PriceColumns[k]).value] else [])
      + SeriesSpec(columns, rows[1..], k)
  }

  /** The first price column that is missing (4 when none is). */
  function FirstMissing(columns: seq<string>): (k: nat)
    ensures k <= 4 && HasColumnsThrough(columns, k)
    ensures k < 4 ==> PriceColumns[k] !in columns
  {
    if PriceColumns[0] !in columns then 0
    else if PriceColumns[1] !in columns then 1
    else if PriceColumns[2] !in columns then 2
    else if PriceColumns[3] !in columns then 3
    else 4
  }

  /**
   * What `plot_data` hands the chart (after the rename): no chart for an unsupported
   * kind; a `KeyError` for the first missing price column; otherwise one label per
   * row and the four series in order.
   */
  function ProjectSpec(columns: seq<string>, rows: seq<Record>, chartType: string, timeSeries: int): Result<Chart, PlotError>
    requires Rectangular(columns, rows)
  {
    match ChartKindOf(chartType)
    case None => Failure(UnsupportedChartKind)
    case Some(kind) =>
      var missing := FirstMissing(columns);
      if missing < 4 then Failure(MissingColumn(PriceColumns[missing]))
      else Success(Chart(kind, Labels(rows, timeSeries), PriceSeries(columns, rows)))
  }

  /** The four series, titled by their price column, in loop order. */
  function PriceSeries(columns: seq<string>, rows: seq<Record>): (series: seq<Series>)
    requires HasColumnsThrough(columns, 4) && Rectangular(columns, rows)
    ensures |series| == 4
    ensures forall k :: 0 <= k < 4 ==> series[k] == Series(PriceColumns[k], SeriesSpec(columns, rows, k))
  {
    seq(4, k requires 0 <= k < 4 => Series(PriceColumns[k], SeriesSpec(columns, rows, k)))
  }

  // ---- the loop step ------------------------------------------------------------

  /** Before any column is visited, no row has been dropped. */
  lemma {:induction false} KeptThroughNone(columns: seq<string>, rows: seq<Record>)
    requires Rectangular(columns, rows)
    ensures KeptThrough(columns, rows, 0) == rows
  {
    if rows != [] {
      KeptThroughNone(columns, rows[1..]);
      assert rows == [rows[0]] + rows[1..];
    }
  }

  lemma DropCons(x: Record, rows: seq<Record>, j: nat)
    requires j < |x.cells| && forall k :: 0 <= k < |rows| ==> j < |rows[k].cells|
    ensures DropNonNumeric([x] + rows, j) == (if x.cells[j].Num? then [x] else []) + DropNonNumeric(rows, j)
  {
    assert ([x] + rows)[0] == x && ([x] + rows)[1..] == rows;
  }

  /** One `dropna` on the next price column turns the rows kept so far into the rows kept one column further. */
  lemma {:induction false} DropStep(columns: seq<string>, rows: seq<Record>, i: nat)
    requires i < 4 && HasColumnsThrough(columns, i + 1) && Rectangular(columns, rows)
    ensures DropNonNumeric(KeptThrough(columns, rows, i), IndexOf(columns, PriceColumns[i]).value)
         == KeptThrough(columns, rows, i + 1)
  {
    if rows != [] {
      var j := IndexOf(columns, PriceColumns[i]).value;
      var tail := KeptThrough(columns, rows[1..], i);
      DropStep(columns, rows[1..], i);
      assert CellOf(columns, rows[0], PriceColumns[i]) == rows[0].cells[j];
      if NumericThrough(columns, rows[0], i) {
        assert KeptThrough(columns, rows, i) == [rows[0]] + tail;
        DropCons(rows[0], tail, j);
      } else {
        assert KeptThrough(columns, rows, i) == tail;
        assert !NumericThrough(columns, rows[0], i + 1);
      }
    }
  }

  /** The values of column `k` over the rows kept through column `k` are series `k`. */
  lemma {:induction false} ValuesStep(columns: seq<string>, rows: seq<Record>, k: nat)
    requires k < 4 && HasColumnsThrough(columns, k + 1) && Rectangular(columns, rows)
    ensures var kept := KeptThrough(columns, rows, k + 1);
            var j := IndexOf(columns, PriceColumns[k]).value;
            (forall m :: 0 <= m < |kept| ==> j < |kept[m].cells| && kept[m].cells[j].Num?)
            && ColumnValues(kept, j) == SeriesSpec(columns, rows, k)
  {
    if rows != [] {
      var tail := KeptThrough(columns, rows[1..], k + 1);
      ValuesStep(columns, rows[1..], k);
      var j := IndexOf(columns, PriceColumns[k]).value;
      if NumericThrough(columns, rows[0], k + 1) {
        var kept := [rows[0]] + tail;
        assert KeptThrough(columns, rows, k + 1) == kept;
        assert kept[0] == rows[0] && kept[1..] == tail;
        assert ColumnValues(kept, j) == [rows[0].cells[j].value] + ColumnValues(tail, j);
      } else {
        assert KeptThrough(columns, rows, k + 1) == tail;
      }
    }
  }

  /** One turn of the loop: the `dropna` on column `i` leaves the rows kept through it, whose values are series `i`. */
  lemma LoopStep(columns: seq<string>, rows: seq<Record>, i: nat)
    requires i < 4 && HasColumnsThrough(columns, i + 1) && Rectangular(columns, rows)
    ensures var j := IndexOf(columns, PriceColumns[i]).value;
            var next := DropNonNumeric(KeptThrough(columns, rows, i), j);
            next == KeptThrough(columns, rows, i + 1)
            && (forall m :: 0 <= m < |next| ==> j < |next[m].cells| && next[m].cells[j].Num?)
            && ColumnValues(next, j) == SeriesSpec(columns, rows, i)
  {
    DropStep(columns, rows, i);
    ValuesStep(columns, rows, i);
  }

  /**
   * `plot_data` after the rename: checks the chart kind, builds the labels, then for
   * Open, High, Low and Close in turn drops the rows not numeric in that column from
   * the frame left by the previous step and adds that column's values.
   */
  method Project(columns: seq<string>, rows: seq<Record>, chartType: string, timeSeries: int)
    returns (r: Result<Chart, PlotError>)
    requires Rectangular(columns, rows)
    ensures r == ProjectSpec(columns, rows, chartType, timeSeries)
  {
    var kind := ChartKindOf(chartType);
    if kind.None? {
      return Failure(UnsupportedChartKind);
    }
    var labels := Labels(rows, timeSeries);
    var df := rows;
    KeptThroughNone(columns, rows);
    var series: seq<Series> := [];
    for i := 0 to 4
      invariant HasColumnsThrough(columns, i)
      invariant df == KeptThrough(columns, rows, i)
      invariant |series| == i
      invariant forall m :: 0 <= m < i ==> series[m] == Series(PriceColumns[m], SeriesSpec(columns, rows, m))
    {
      var col := PriceColumns[i];
      var j := IndexOf(columns, col);
      if j.None? {
        assert FirstMissing(columns) == i;
        return Failure(MissingColumn(col));
      }
      assert HasColumnsThrough(columns, i + 1);
      LoopStep(columns, rows, i);
      df := DropNonNumeric(df, j.value);
      series := series + [Series(col, ColumnValues(df, j.value))];
    }
    assert series == PriceSeries(columns, rows);
    r := Success(Chart(kind.value, labels, series));
  }

  /**
   * `plot_data(df, chart_type, normalize=False, time_series)`: renames the caller's
   * columns in place (before anything can fail), then projects.
   */
  method PlotData(df: Frame, chartType: string, timeSeries: int) returns (r: Result<Chart, PlotError>)
    requires Rectangular(df.columns, df.rows)
    modifies df
    ensures df.columns == RenamedColumns(old(df.columns), ProviderNames)
    ensures df.rows == old(df.rows)
    ensures r == ProjectSpec(df.columns, df.rows, chartType, timeSeries)
  {
    df.Rename(ProviderNames);
    r := Project(df.columns, df.rows, chartType, timeSeries);
  }

  // ---- properties ---------------------------------------------------------------

  /** An unsupported chart kind gives no chart at all. */
  lemma UnsupportedKindGivesNoChart(columns: seq<string>, rows: seq<Record>, chartType: string, timeSeries: int)
    requires Rectangular(columns, rows)
    requires chartType != "line" && chartType != "bar"
    ensures ProjectSpec(columns, rows, chartType, timeSeries) == Failure(UnsupportedChartKind)
  {
  }

  /**
   * A chart choice the validator accepts, turned into a chart type as the main loop
   * does ("1" a line chart, anything else a bar chart), is always a supported kind,
   * and the two choices give the two kinds.
   */
  lemma ValidatedChartChoiceSupported(choice: string)
    requires Validators.ValidateChartType(choice)
    ensures ChartKindOf(if choice == "1" then "line" else "bar") == Some(if choice == "1" then Line else Bar)
    ensures ChartKindOf(if choice == "1" then "line" else "bar") == Some(Bar) <==> choice == "2"
  {
  }

  /** The provider's columns, renamed, include all four price columns, so only the chart kind can fail. */
  lemma ProviderColumnsProject(rows: seq<Record>, chartType: string, timeSeries: int)
    requires Rectangular(["1. open", "2. high", "3. low", "4. close", "5. volume"], rows)
    ensures var renamed := RenamedColumns(["1. open", "2. high", "3. low", "4. close", "5. volume"], ProviderNames);
            renamed == ["Open", "High", "Low", "Close", "5. volume"]
            && ProjectSpec(renamed, rows, chartType, timeSeries).Success?
               == (chartType == "line" || chartType == "bar")
  {
    var provider := ["1. open", "2. high", "3. low", "4. close", "5. volume"];
    var renamed := RenamedColumns(provider, ProviderNames);
    assert renamed == ["Open", "High", "Low", "Close", "5. volume"];
    assert renamed[0] == "Open" && renamed[1] == "High" && renamed[2] == "Low" && renamed[3] == "Close";
    assert FirstMissing(renamed) == 4;
  }

  /** Renaming a second time changes nothing: the charted names are not provider names. */
  lemma RenameIdempotent(columns: seq<string>)
    ensures RenamedColumns(RenamedColumns(columns, ProviderNames), ProviderNames)
         == RenamedColumns(columns, ProviderNames)
  {
    var once := RenamedColumns(columns, ProviderNames);
    forall i | 0 <= i < |once| ensures once[i] !in ProviderNames {
      if columns[i] in ProviderNames {
        assert once[i] in ProviderNames.Values;
      }
    }
  }

  /**
   * The date label reads back under `strptime('%Y-%m-%d')` as the row's date. With
   * `DateLabel`'s own contract (ten characters, all digits but the two dashes) this
   * fixes the label to the zero-padded text `strftime` writes.
   */
  lemma DateLabelParses(t: Timestamp)
    ensures Validators.ParseDate(DateLabel(t)) == Some(DateOf(t))
  {
    var d: CalendarDate := DateOf(t);
    assert DateLabel(t) == Validators.DateText(d, Validators.MonthPadded, Validators.DayPadded);
    Validators.ParseDateText(d, Validators.MonthPadded, Validators.DayPadded);
  }

  /**
   * Every row gets a label, in row order; its date part reads back as the row's date,
   * and for the intraday series (selector 1) a space and the row's `HH:MM:SS` follow it,
   * while the other series show the date alone.
   */
  lemma LabelsDescribeRows(columns: seq<string>, rows: seq<Record>, chartType: string, timeSeries: int)
    requires Rectangular(columns, rows)
    requires ProjectSpec(columns, rows, chartType, timeSeries).Success?
    ensures var labels := ProjectSpec(columns, rows, chartType, timeSeries).value.labels;
            |labels| == |rows|
            && forall i :: 0 <= i < |rows| ==>
                 |labels[i]| == (if timeSeries == 1 then 19 else 10)
                 && labels[i][..10] == DateLabel(rows[i].ts)
                 && Validators.ParseDate(labels[i][..10]) == Some(DateOf(rows[i].ts))
                 && (timeSeries == 1 ==> labels[i][10] == ' ' && ShowsTimeOfDay(labels[i], rows[i].ts))
  {
    var labels := ProjectSpec(columns, rows, chartType, timeSeries).value.labels;
    forall i | 0 <= i < |rows|
      ensures |labels[i]| == (if timeSeries == 1 then 19 else 10)
      ensures labels[i][..10] == DateLabel(rows[i].ts)
      ensures Validators.ParseDate(labels[i][..10]) == Some(DateOf(rows[i].ts))
      ensures timeSeries == 1 ==> labels[i][10] == ' ' && ShowsTimeOfDay(labels[i], rows[i].ts)
    {
      DateLabelParses(rows[i].ts);
    }
  }

  /** A row is kept through column `n` exactly when it is a row of the frame numeric in the first `n` price columns. */
  lemma {:induction false} KeptMembers(columns: seq<string>, rows: seq<Record>, n: nat, x: Record)
    requires HasColumnsThrough(columns, n) && Rectangular(columns, rows)
    ensures x in KeptThrough(columns, rows, n)
        <==> x in rows && |x.cells| == |columns| && NumericThrough(columns, x, n)
  {
    if rows != [] {
      KeptMembers(columns, rows[1..], n, x);
      assert rows == [rows[0]] + rows[1..];
    }
  }

  /**
   * The dropping is cumulative: a row whose cell in price column `k` is not a number
   * is missing from series `k` and from every later series, while a row numeric in
   * the first `k` columns still reaches the series before `k`.
   */
  lemma CumulativeDrop(columns: seq<string>, rows: seq<Record>, x: Record, k: nat)
    requires HasColumnsThrough(columns, 4) && Rectangular(columns, rows)
    requires x in rows && k < 4 && CellOf(columns, x, PriceColumns[k]).NonNum?
    ensures forall n :: k < n <= 4 ==> x !in KeptThrough(columns, rows, n)
    ensures NumericThrough(columns, x, k) ==> forall n :: 0 <= n <= k ==> x in KeptThrough(columns, rows, n)
  {
    forall n | k < n <= 4 ensures x !in KeptThrough(columns, rows, n) {
      KeptMembers(columns, rows, n, x);
      NumericThroughPrefix(columns, x, k + 1, n);
    }
    if NumericThrough(columns, x, k) {
      forall n | 0 <= n <= k ensures x in KeptThrough(columns, rows, n) {
        KeptMembers(columns, rows, n, x);
        NumericThroughPrefix(columns, x, n, k);
      }
    }
  }

  lemma {:induction false} NumericThroughPrefix(columns: seq<string>, row: Record, m: nat, n: nat)
    requires m <= n && HasColumnsThrough(columns, n) && |row.cells| == |columns|
    ensures NumericThrough(columns, row, n) ==> NumericThrough(columns, row, m)
    decreases n
  {
    if m < n {
      NumericThroughPrefix(columns, row, m, n - 1);
    }
  }

  lemma {:induction false} KeptShrinks(columns: seq<string>, rows: seq<Record>, n: nat)
    requires n < 4 && HasColumnsThrough(columns, n + 1) && Rectangular(columns, rows)
    ensures |KeptThrough(columns, rows, n + 1)| <= |KeptThrough(columns, rows, n)| <= |rows|
  {
    if rows != [] {
      KeptShrinks(columns, rows[1..], n);
    }
  }

  /** Series `k` has one value per row kept through column `k`. */
  lemma SeriesLength(columns: seq<string>, rows: seq<Record>, k: nat)
    requires k < 4 && HasColumnsThrough(columns, k + 1) && Rectangular(columns, rows)
    ensures |SeriesSpec(columns, rows, k)| == |KeptThrough(columns, rows, k + 1)|
  {
    ValuesStep(columns, rows, k);
  }

  /** The series shrink in loop order: labels, then Open, High, Low and Close, each no longer than the one before. */
  lemma SeriesLengthsDecrease(columns: seq<string>, rows: seq<Record>, chartType: string, timeSeries: int)
    requires Rectangular(columns, rows)
    requires ProjectSpec(columns, rows, chartType, timeSeries).Success?
    ensures var c := ProjectSpec(columns, rows, chartType, timeSeries).value;
            |c.series| == 4
            && |c.labels| >= |c.series[0].values| >= |c.series[1].values|
               >= |c.series[2].values| >= |c.series[3].values|
  {
    var c := ProjectSpec(columns, rows, chartType, timeSeries).value;
    assert HasColumnsThrough(columns, 4);
    assert c.series == PriceSeries(columns, rows) && c.labels == Labels(rows, timeSeries);
    SeriesSpecLengths(columns, rows);
  }

  lemma SeriesSpecLengths(columns: seq<string>, rows: seq<Record>)
    requires HasColumnsThrough(columns, 4) && Rectangular(columns, rows)
    ensures |rows| >= |SeriesSpec(columns, rows, 0)| >= |SeriesSpec(columns, rows, 1)|
            >= |SeriesSpec(columns, rows, 2)| >= |SeriesSpec(columns, rows, 3)|
  {
    SeriesLength(columns, rows, 0);
    SeriesLength(columns, rows, 1);
    SeriesLength(columns, rows, 2);
    SeriesLength(columns, rows, 3);
    KeptThroughNone(columns, rows);
    KeptShrinks(columns, rows, 0);
    KeptShrinks(columns, rows, 1);
    KeptShrinks(columns, rows, 2);
    KeptShrinks(columns, rows, 3);
  }

  lemma ExampleLabels()
    ensures DateLabel(DateTime(2023, 1, 1, 0, 0, 0)) == "2023-01-01"
    ensures DateLabel(DateTime(2023, 1, 2, 0, 0, 0)) == "2023-01-02"
  {
    assert Pad2(20) == "20" && Pad2(23) == "23";
    assert Pad4(2023) == "2023";
    assert Pad2(1) == "01" && Pad2(2) == "02";
  }

  lemma PricePositions()
    ensures IndexOf(PriceColumns, "Open") == Some(0) && IndexOf(PriceColumns, "High") == Some(1)
    ensures IndexOf(PriceColumns, "Low") == Some(2) && IndexOf(PriceColumns, "Close") == Some(3)
  {
    assert PriceColumns[1..] == ["High", "Low", "Close"];
    assert PriceColumns[1..][1..] == ["Low", "Close"];
    assert PriceColumns[1..][1..][1..] == ["Close"];
  }

  lemma ExampleNumeric(r0: Record, r1: Record)
    requires r0.cells == [Num(1.0), Num(2.0), Num(0.5), NonNum]
    requires r1.cells == [Num(3.0), Num(4.0), Num(1.0), Num(5.0)]
    ensures HasColumnsThrough(PriceColumns, 4)
    ensures NumericThrough(PriceColumns, r0, 3) && !NumericThrough(PriceColumns, r0, 4)
    ensures NumericThrough(PriceColumns, r1, 4)
  {
    PricePositions();
    assert NumericThrough(PriceColumns, r0, 1) && NumericThrough(PriceColumns, r0, 2);
    assert NumericThrough(PriceColumns, r1, 1) && NumericThrough(PriceColumns, r1, 2);
    assert NumericThrough(PriceColumns, r1, 3);
  }

  /** Series `k` over two rows, one row at a time. */
  lemma SeriesOfTwo(columns: seq<string>, r0: Record, r1: Record, k: nat)
    requires k < 4 && HasColumnsThrough(columns, k + 1)
    requires |r0.cells| == |columns| && |r1.cells| == |columns| && Rectangular(columns, [r0, r1])
    ensures SeriesSpec(columns, [r0, r1], k)
         == (if NumericThrough(columns, r0, k + 1) then [CellOf(columns, r0, PriceColumns[k]).value] else [])
          + (if NumericThrough(columns, r1, k + 1) then [CellOf(columns, r1, PriceColumns[k]).value] else [])
  {
    var rows := [r0, r1];
    assert rows[0] == r0 && rows[1..] == [r1];
    assert [r1][0] == r1 && [r1][1..] == [];
    assert SeriesSpec(columns, [r1], k)
        == (if NumericThrough(columns, r1, k + 1) then [CellOf(columns, r1, PriceColumns[k]).value] else []) + [];
  }

  lemma ExampleSeries(rows: seq<Record>)
    requires rows == [Record(DateTime(2023, 1, 1, 0, 0, 0), [Num(1.0), Num(2.0), Num(0.5), NonNum]),
                      Record(DateTime(2023, 1, 2, 0, 0, 0), [Num(3.0), Num(4.0), Num(1.0), Num(5.0)])]
    ensures Rectangular(PriceColumns, rows) && HasColumnsThrough(PriceColumns, 4)
    ensures SeriesSpec(PriceColumns, rows, 0) == [1.0, 3.0]
    ensures SeriesSpec(PriceColumns, rows, 1) == [2.0, 4.0]
    ensures SeriesSpec(PriceColumns, rows, 2) == [0.5, 1.0]
    ensures SeriesSpec(PriceColumns, rows, 3) == [5.0]
  {
    var r0, r1 := rows[0], rows[1];
    assert rows == [r0, r1];
    PricePositions();
    ExampleNumeric(r0, r1);
    NumericThroughPrefix(PriceColumns, r0, 1, 3);
    NumericThroughPrefix(PriceColumns, r0, 2, 3);
    NumericThroughPrefix(PriceColumns, r1, 1, 4);
    NumericThroughPrefix(PriceColumns, r1, 2, 4);
    NumericThroughPrefix(PriceColumns, r1, 3, 4);
    SeriesOfTwo(PriceColumns, r0, r1, 0);
    SeriesOfTwo(PriceColumns, r0, r1, 1);
    SeriesOfTwo(PriceColumns, r0, r1, 2);
    SeriesOfTwo(PriceColumns, r0, r1, 3);
  }

  /**
   * Example: rows (2023-01-01: 1, 2, 0.5, "bad") and (2023-01-02: 3, 4, 1, 5) give
   * Open [1, 3], High [2, 4], Low [0.5, 1] and Close [5].
   */
  lemma BadCloseExample()
    ensures var d1 := DateTime(2023, 1, 1, 0, 0, 0);
            var d2 := DateTime(2023, 1, 2, 0, 0, 0);
            var rows := [Record(d1, [Num(1.0), Num(2.0), Num(0.5), NonNum]),
                         Record(d2, [Num(3.0), Num(4.0), Num(1.0), Num(5.0)])];
            ProjectSpec(PriceColumns, rows, "line", 2)
            == Success(Chart(Line, ["2023-01-01", "2023-01-02"],
                             [Series("Open", [1.0, 3.0]), Series("High", [2.0, 4.0]),
                              Series("Low", [0.5, 1.0]), Series("Close", [5.0])]))
  {
    var d1 := DateTime(2023, 1, 1, 0, 0, 0);
    var d2 := DateTime(2023, 1, 2, 0, 0, 0);
    var rows := [Record(d1, [Num(1.0), Num(2.0), Num(0.5), NonNum]),
                 Record(d2, [Num(3.0), Num(4.0), Num(1.0), Num(5.0)])];
    ExampleSeries(rows);
    ExampleChartLabels(rows);
    ExampleChartSeries(rows);
    assert FirstMissing(PriceColumns) == 4;
  }

  lemma ExampleChartLabels(rows: seq<Record>)
    requires |rows| == 2
    requires rows[0].ts == DateTime(2023, 1, 1, 0, 0, 0) && rows[1].ts == DateTime(2023, 1, 2, 0, 0, 0)
    ensures Labels(rows, 2) == ["2023-01-01", "2023-01-02"]
  {
    ExampleLabels();
    assert Labels(rows, 2)[0] == DateLabel(rows[0].ts);
    assert Labels(rows, 2)[1] == DateLabel(rows[1].ts);
  }

  lemma ExampleChartSeries(rows: seq<Record>)
    requires HasColumnsThrough(PriceColumns, 4) && Rectangular(PriceColumns, rows)
    requires SeriesSpec(PriceColumns, rows, 0) == [1.0, 3.0]
    requires SeriesSpec(PriceColumns, rows, 1) == [2.0, 4.0]
    requires SeriesSpec(PriceColumns, rows, 2) == [0.5, 1.0]
    requires SeriesSpec(PriceColumns, rows, 3) == [5.0]
    ensures PriceSeries(PriceColumns, rows)
         == [Series("Open", [1.0, 3.0]), Series("High", [2.0, 4.0]),
             Series("Low", [0.5, 1.0]), Series("Close", [5.0])]
  {
  }
}
