# Stock Data Analyzer — a verified model of its core

StockDataAnalyzer is an interactive script. It fetches a stock's price series
(intraday, daily, weekly or monthly) from a market-data provider, asks for a
date range and a chart type, filters the series to that range, and draws the
Open, High, Low and Close prices as a line or bar chart. This project models
the parts of the script that decide what gets charted:

- **Granularity resolver** (`resolver.dfy`): the selector 1 to 4 names a
  granularity. It chooses the provider function and the query options
  `get_data` passes: intraday bars of 60 minutes with the full history, the
  full daily history, and the default weekly and monthly series. `get_data`
  never reads `time_series_dict`: it calls `get_intraday`, `get_daily`,
  `get_weekly` or `get_monthly`. The model uses the dictionary as the table of
  the function names those four calls send.
- **Input validators** (`validators.dfy`): the stock symbol, chart-type,
  time-series and yes/no checks. It also holds a model of
  `datetime.strptime(text, '%Y-%m-%d')` as `validate_date` and
  `validate_date_range` use it: the regular expressions CPython's `_strptime`
  builds for `%Y`, `%m` and `%d`, the rule that the whole text must be
  consumed, and the calendar check of `datetime.date`.
- **Date-range filter** (`range_filter.dfy`): `filter_by_date_range`. The two
  dates become midnight timestamps and the series is sorted by timestamp. Then
  the closed label slice `loc[start:end]` is taken, as two `searchsorted`
  positions. The slice is proved equal to a plain filter of the sorted series.
  From that follow membership, ordering, permutation, idempotence, clipping and
  the empty-window result.
- **Chart projection** (`projection.dfy`, `frames.dfy`): the data side of
  `plot_data`. The provider's column names are renamed in place on the caller's
  frame (a `Frame` class), and then the chart kind is checked. Then come one
  x-axis label per row (with the time of day for intraday series only) and the
  loop over Open, High, Low and Close. That loop is a `for` loop proved
  against `ProjectSpec`. Because the loop rebinds the frame after each
  `dropna`, a row dropped for one column is missing from every later series.
- `timestamps.dfy` holds the calendar, the timestamp order and the `strftime`
  label renderings. `wrappers.dfy` holds `Option` and `Result`.

Four behaviours of the code are easy to misread, and the model follows the code:

- Dropping is cumulative: `df` is rebound to the dropped frame, so each column's
  `dropna` starts from the rows the previous columns left.
- A selector outside 1 to 4 issues no query. The code would reach an unbound
  variable, so the model gives `None`.
- An unsupported chart type returns without a chart only after the caller's
  columns have been renamed.
- A date `validate_date` accepts can still make `filter_by_date_range` raise,
  and nothing catches that. The model follows pandas 1.x and 2.x, where
  `pd.to_datetime` parses text to nanosecond timestamps only. There it refuses
  midnights outside 1677-09-22 to 2262-04-11. The script does not pin a pandas
  version.

## Model

| member | source | states |
|---|---|---|
| Resolver.GranularityOf | StockDataAnalyzer.py:10-15 | a granularity exists exactly for selectors 1 to 4 |
| Resolver.SelectorRoundTrip | StockDataAnalyzer.py:10-15 | the selector numbering is a bijection between 1..4 and the four granularities |
| Resolver.FunctionName | StockDataAnalyzer.py:10-15 | every entry of `time_series_dict` is a `TIME_SERIES_` function name |
| Resolver.FunctionNameInjective | StockDataAnalyzer.py:10-15 | the four function names are distinct |
| Resolver.QueryFor | StockDataAnalyzer.py:22-29 | each branch of `get_data` asks for its granularity's function; only intraday passes an interval; exactly intraday and daily pass an output size |
| Resolver.Resolve | StockDataAnalyzer.py:19-29 | a query is issued exactly for selectors 1 to 4; it names TIME_SERIES_INTRADAY with a 60min interval and full output, TIME_SERIES_DAILY with full output, TIME_SERIES_WEEKLY and TIME_SERIES_MONTHLY with no options |
| Resolver.QueryOptions | StockDataAnalyzer.py:22-29 | only the intraday query has an interval and it is 60min; exactly intraday and daily ask for the full output; weekly and monthly pass no output size |
| Resolver.ResolveInjective | StockDataAnalyzer.py:10-15 | distinct selectors issue distinct queries |
| Resolver.ValidatedSelectorResolves | StockDataAnalyzer.py:88-89 | the time-series validator accepts a text exactly when it is one digit that converts to a selector the resolver accepts |
| Validators.Lower | StockDataAnalyzer.py:106 | lower-casing keeps the length and maps every character by the ASCII case mapping |
| Validators.ValidateStockName | StockDataAnalyzer.py:80-81 | a symbol is accepted exactly when it has one to five characters, each of which lower-cases to a letter from a to z |
| Validators.StockNameCaseInsensitive | StockDataAnalyzer.py:80-81 | lower-casing a symbol never changes the verdict |
| Validators.StockNameExamples | StockDataAnalyzer.py:80-81 | "AAPL", "msft" and "F" pass; "GOOGLE" (six letters), "BRK.B" (a dot) and the empty text fail |
| Validators.ValidateChartType | StockDataAnalyzer.py:84-85 | a chart choice is accepted exactly when it is a single character from 1 to 2 |
| Validators.ValidateTimeSeries | StockDataAnalyzer.py:88-89 | a series choice is accepted exactly when it is a single character from 1 to 4 |
| Validators.ValidateYesNo | StockDataAnalyzer.py:105-106 | an accepted answer has one to three characters and starts with y or n in either case; YesNoAccepts lists exactly what is accepted |
| Validators.YesNoAccepts | StockDataAnalyzer.py:105-106 | an answer is accepted exactly when it is one of the sixteen case spellings of yes, no, y and n |
| Validators.ParseDate | StockDataAnalyzer.py:92-97 | a text that `strptime(text, '%Y-%m-%d')` accepts has 8 to 10 characters, a dash after the four-digit year and a second dash after a one- or two-character month; the result is a real calendar date |
| Validators.ValidateDate | StockDataAnalyzer.py:92-97 | `validate_date` accepts only texts of 8 to 10 characters with a dash after the year; ValidateDateAccepts states exactly which texts |
| Timestamps.DaysInMonth | StockDataAnalyzer.py:94 | a month has 28 to 31 days; February has 29 exactly in leap years and 28 otherwise |
| Validators.FieldsOfParts | StockDataAnalyzer.py:94 | a text written as year, dash, month, dash, day splits back into exactly those three fields |
| Validators.ParseDateText | StockDataAnalyzer.py:92-97 | every way `%Y-%m-%d` can write a real date (padded or bare month; padded, bare or space-led day) parses back to that date |
| Validators.ParsedIsDateText | StockDataAnalyzer.py:92-97 | every text that parses is one of the ways of writing the date it parses to |
| Validators.ValidateDateAccepts | StockDataAnalyzer.py:92-97 | `validate_date` accepts a text exactly when it writes some real calendar date in the `%Y-%m-%d` format |
| Validators.LeapDayAccepted | StockDataAnalyzer.py:92-97 | February 29 is accepted in 2024 and in 2000 (the 400-year rule) |
| Validators.LeapDayRejected | StockDataAnalyzer.py:92-97 | February 29 is refused in 2023 and in 1900 (the 100-year rule), and February 30 is always refused |
| Validators.ShortFieldEdges | StockDataAnalyzer.py:92-97 | a month or day without its leading zero, or a day with a leading space, is accepted |
| Validators.RejectedYears | StockDataAnalyzer.py:92-97 | year 0000 and a two-digit year are refused |
| Validators.RejectedFields | StockDataAnalyzer.py:92-97 | month 13, April 31 and trailing text are refused |
| Validators.ValidateDateRange | StockDataAnalyzer.py:100-103 | there is a verdict exactly when both texts parse (otherwise strptime raises); the verdict is true exactly when the end date is not before the start date |
| Validators.SameDateIsValidRange | StockDataAnalyzer.py:100-103 | a valid date entered as both start and end is a valid range |
| Timestamps.Midnight | StockDataAnalyzer.py:44-45 | a date bound becomes the timestamp at midnight of that date |
| Timestamps.MidnightOrder | StockDataAnalyzer.py:103 | comparing two midnights is comparing their dates |
| Timestamps.OrderIsTotal | StockDataAnalyzer.py:52 | timestamp order is a strict total order, so sorting by it is well defined |
| RangeFilter.Insert | StockDataAnalyzer.py:52 | inserting into a sorted series keeps it sorted and adds exactly that record |
| RangeFilter.SortByTime | StockDataAnalyzer.py:52 | `sort_index` gives a series sorted by timestamp with the same records, each as often |
| RangeFilter.SortSorted | StockDataAnalyzer.py:52 | sorting an already sorted series changes nothing |
| RangeFilter.SortKeepsUnique | StockDataAnalyzer.py:52 | sorting keeps timestamps distinct |
| RangeFilter.WithinSort | StockDataAnalyzer.py:52-59 | the in-window records of the sorted series are the input's in-window records, rearranged |
| RangeFilter.SearchLeft | StockDataAnalyzer.py:59 | every record before the left position lies before the start; on a sorted series none after it does |
| RangeFilter.SearchRight | StockDataAnalyzer.py:59 | no record before the right position lies after the end; on a sorted series every record from it on does |
| RangeFilter.SliceBetween | StockDataAnalyzer.py:59 | the label slice is no longer than the series and holds nothing after the end; on a sorted series everything it holds lies in the window |
| RangeFilter.SliceIsWithin | StockDataAnalyzer.py:59 | on a sorted series the label slice from start to end, both included, is exactly the records whose timestamps lie in that window |
| RangeFilter.MidnightInNanosecondRange | StockDataAnalyzer.py:44-45 | a date's midnight fits in a pandas timestamp exactly when the date lies between 1677-09-22 and 2262-04-11 |
| RangeFilter.ToDatetime | StockDataAnalyzer.py:44-45 | under pandas 1.x and 2.x, `pd.to_datetime` of a date gives its midnight exactly when the date lies in that range, and `OutOfBoundsDatetime` for that date otherwise |
| RangeFilter.TimestampRangeEdges | StockDataAnalyzer.py:44-45 | 1677-09-22 and 2262-04-11 convert; 1677-09-21 and 2262-04-12 do not |
| RangeFilter.SelectWindow | StockDataAnalyzer.py:52-59 | once both bounds are midnights, the result is sorted, lies inside the window between them, and is the in-window part of the sorted series |
| RangeFilter.FilterByDateRange | StockDataAnalyzer.py:42-65 | the call fails exactly when a bound lies outside 1677-09-22..2262-04-11, naming the start date if it is out of range and otherwise the end date; otherwise it returns the window of SelectWindow |
| RangeFilter.OutOfBoundsExample | StockDataAnalyzer.py:44-45 | "1000-01-01" and "9999-12-31" pass `validate_date`, yet as a start and an end bound they make the filter fail |
| RangeFilter.FilterMembers | StockDataAnalyzer.py:44-59 | a record is in the window exactly when it is in the input and its timestamp lies between the two midnights |
| RangeFilter.FilterPermutesWindow | StockDataAnalyzer.py:44-59 | the result holds the input's in-window records, each as often as the input does |
| RangeFilter.FilterStrictlyAscending | StockDataAnalyzer.py:44-59 | with distinct input timestamps each record of the result is later than the one before |
| RangeFilter.FilterIsAscendingWindow | StockDataAnalyzer.py:44-59 | with distinct input timestamps the result is the only strictly ascending arrangement of the in-window records |
| RangeFilter.AscendingArrangementUnique | StockDataAnalyzer.py:52 | two strictly ascending arrangements of the same records are equal |
| RangeFilter.FilterWholeSeries | StockDataAnalyzer.py:59 | a window covering every timestamp returns the whole series, sorted |
| RangeFilter.FilterEmptyWindow | StockDataAnalyzer.py:59 | a window holding no timestamp gives the empty series, not an error |
| RangeFilter.FilterIdempotent | StockDataAnalyzer.py:44-59 | selecting the same window again from the result returns it unchanged |
| RangeFilter.FilterDropsEndDayAfterMidnight | StockDataAnalyzer.py:45-59 | a record on the end date stamped after midnight is not in the result |
| RangeFilter.DailyExample | StockDataAnalyzer.py:42-65 | daily records of 2023-01-03 and 2023-01-01, filtered to 2023-01-02..2023-01-03, succeed with only 2023-01-03 |
| RangeFilter.IntradayExample | StockDataAnalyzer.py:42-65 | an intraday bar at 10:00 on the end date is filtered out, leaving an empty result |
| Frames.RenamedColumns | StockDataAnalyzer.py:110-111 | a column named in the mapping takes its new name, every other keeps its own, and the number of columns is unchanged |
| Frames.Frame.Rename | StockDataAnalyzer.py:111 | the frame's columns become the renamed columns and its rows are untouched |
| Projection.RenameIdempotent | StockDataAnalyzer.py:110-111 | renaming a second time with the provider mapping changes nothing |
| Projection.ProviderColumnsProject | StockDataAnalyzer.py:110-143 | the provider's columns rename to Open, High, Low, Close and volume, so a chart results exactly when the chart type is line or bar |
| Projection.ChartKindOf | StockDataAnalyzer.py:118-124 | "line" gives a line chart, "bar" a bar chart, and every other text no kind |
| Projection.UnsupportedKindGivesNoChart | StockDataAnalyzer.py:118-124 | an unsupported chart type produces no chart |
| Projection.ValidatedChartChoiceSupported | StockDataAnalyzer.py:84-85 | a validated chart choice, mapped as line 192 of the script maps it, always names a supported kind: "1" a line chart, "2" a bar chart |
| Projection.AxisLabel | StockDataAnalyzer.py:132-135 | a row's label: 19 characters for the intraday series, with the date label, a space and the row's time of day; 10 characters, the date label alone, otherwise |
| Projection.Labels | StockDataAnalyzer.py:132-135 | one label per row in row order, with date and time for the intraday series and the date alone otherwise |
| Timestamps.DateLabel | StockDataAnalyzer.py:135 | the `%Y-%m-%d` label has ten characters, dashes at positions 4 and 7 and digits everywhere else; with DateLabelParses this fixes it to the zero-padded text |
| Timestamps.DateTimeLabel | StockDataAnalyzer.py:133 | the `%Y-%m-%d %H:%M:%S` label is 19 characters: the date label, a space, then two digits reading back as the hour, a colon, the minute, a colon, the second |
| Projection.DateLabelParses | StockDataAnalyzer.py:135 | a date label parses under `%Y-%m-%d` back to the row's date |
| Projection.LabelsDescribeRows | StockDataAnalyzer.py:132-135 | every row of a charted frame gets a label, in row order; its date part parses back to the row's date; for the intraday series it is 19 characters and its time part reads back as the row's hour, minute and second, otherwise it is the 10-character date |
| Projection.IndexOf | StockDataAnalyzer.py:139 | a column is found exactly when the frame has it, at a position holding that name |
| Projection.DropNonNumeric | StockDataAnalyzer.py:139-140 | `dropna` after coercion keeps a row exactly when it is a row of the frame whose cell in that column is numeric, never more rows |
| Projection.ColumnValues | StockDataAnalyzer.py:143 | a column's value list has one value per row |
| Projection.FirstMissing | StockDataAnalyzer.py:138-139 | the first price column the frame lacks (4 when none is missing); all earlier ones are present |
| Projection.PriceSeries | StockDataAnalyzer.py:138-143 | four series, titled Open, High, Low, Close in loop order |
| Projection.DropStep | StockDataAnalyzer.py:139-140 | one `dropna` on the next price column turns the rows kept so far into the rows kept one column further |
| Projection.ValuesStep | StockDataAnalyzer.py:143 | the column values over the rows kept through that column are all numeric and are that column's series |
| Projection.LoopStep | StockDataAnalyzer.py:138-143 | one turn of the loop leaves the rows kept through column i, and their values are series i |
| Projection.Project | StockDataAnalyzer.py:117-143 | the loop gives no chart for an unsupported kind, a KeyError for the first missing price column, and otherwise one label per row and the four series of the cumulative drop |
| Projection.PlotData | StockDataAnalyzer.py:109-143 | the caller's columns are renamed in place and its rows untouched, whatever follows; the result is the projection of the renamed frame |
| Projection.KeptMembers | StockDataAnalyzer.py:138-140 | a row survives the first n drops exactly when it is a frame row numeric in the first n price columns |
| Projection.NumericThroughPrefix | StockDataAnalyzer.py:138-140 | a row numeric in the first n price columns is numeric in every shorter prefix |
| Projection.CumulativeDrop | StockDataAnalyzer.py:138-140 | a row whose cell in column k is not numeric is missing from series k and every later one, but still reaches the earlier series if numeric there |
| Projection.KeptShrinks | StockDataAnalyzer.py:140 | each drop keeps no more rows than the one before |
| Projection.SeriesLength | StockDataAnalyzer.py:140-143 | series k has one value per row kept through column k |
| Projection.SeriesSpecLengths | StockDataAnalyzer.py:138-143 | the frame has no fewer rows than the Open series, which has no fewer values than High, then Low, then Close |
| Projection.SeriesLengthsDecrease | StockDataAnalyzer.py:132-143 | in a chart the labels are no fewer than the Open values, and Open, High, Low and Close are each no longer than the one before |
| Projection.ExampleLabels | StockDataAnalyzer.py:135 | midnight of 2023-01-01 is labelled "2023-01-01" and of 2023-01-02 "2023-01-02" |
| Projection.ExampleSeries | StockDataAnalyzer.py:138-143 | with a non-numeric Close on the first of two rows, Open, High and Low keep both values and Close only the second |
| Projection.BadCloseExample | StockDataAnalyzer.py:109-143 | that two-row daily frame as a line chart gives the two date labels, Open [1, 3], High [2, 4], Low [0.5, 1] and Close [5] |

## Left out

- The provider call itself (network access, the API key, the returned frame) is not modelled. `get_data`'s `ValueError` handling and its empty-frame check are not modelled. `Resolve` models only which query each selector issues.
- `get_input`, `main` and their prompt loops, messages and retries are not modelled. They are console I/O. Only the chart-choice mapping of `main` appears, in `ValidatedChartChoiceSupported`.
- Normalisation (`normalize=True`, `MinMaxScaler`) is floating-point scaling from a library, so it is not modelled; `Project` is the `normalize=False` path.
- Chart rendering is not modelled: the pygal chart objects, titles, label rotation, the line chart's `x_value_formatter` and `render_in_browser`. The model stops at what the chart is given.
- Values are exact reals. Floating-point representation and NaN propagation are not modelled. A cell is either a number or something `to_numeric` coerces to NaN, so the in-place coercion of the caller's Open column changes nothing the model can see.
- `isalpha`, `lower` and the `\d` of `strptime` are modelled on ASCII only. Python applies them to all of Unicode.
- `FilterByDateRange`: pandas 3.0 and later are not modelled. There `pd.to_datetime` infers a microsecond unit from the text, so every date `validate_date` accepts converts, and the call returns the window `SelectWindow` gives instead of `OutOfBoundsDatetime`.
- `FilterByDateRange`: the text parsing of `pd.to_datetime` is not modelled. The bounds are taken as the calendar dates `strptime` accepted. The range check `to_datetime` applies to them is modelled, in `ToDatetime`.
- `SortByTime`: pandas' default sort is not stable. Records with equal timestamps may come out in another order than the model's insertion sort gives. Every property proved under distinct timestamps is unaffected.
- `SearchLeft`, `SearchRight`: pandas finds the slice positions by binary search. The model scans linearly, which gives the same positions on a sorted series.
- `IndexOf`: a frame with two columns of the same name is modelled by its first one. In the script, `df[col]` then returns both columns and `pd.to_numeric` raises `TypeError`, so plotting fails there. That failure is not modelled.
- Index timestamps range over years 1 to 9999 as `datetime` allows. The series a provider returns lies inside pandas' nanosecond range, so `DateLabel`'s four-digit padding of years below 1000 is never exercised by real data.
- `plot_data`'s default `time_series=None` is not a separate case: every value other than 1 gives date-only labels, as in the code.
