/**
 * `filter_by_date_range`: the bounds become midnight timestamps (or the conversion
 * raises when a midnight is outside what a pandas 1.x or 2.x nanosecond timestamp
 * can hold), the series
 * is sorted by timestamp, and the closed label slice `[start, end]` is taken.
 */
module RangeFilter {
  import opened Wrappers
  import opened Timestamps
  import opened Frames
  import Validators

  predicate Sorted(s: seq<Record>) {
    forall i, j :: 0 <= i < j < |s| ==> NotAfter(s[i].ts, s[j].ts)
  }

  predicate StrictlyAscending(s: seq<Record>) {
    forall i, j :: 0 <= i < j < |s| ==> Before(s[i].ts, s[j].ts)
  }

  /** No two records share a timestamp, as in a series the provider returns. */
  predicate UniqueTimes(s: seq<Record>) {
    forall i, j :: 0 <= i < j < |s| ==> s[i].ts != s[j].ts
  }

  predicate InWindow(t: Timestamp, start: Timestamp, end: Timestamp) {
    NotAfter(start, t) && NotAfter(t, end)
  }

  // ---- sort_index -----------------------------------------------------------

  function Insert(x: Record, s: seq<Record>): (r: seq<Record>)
    requires Sorted(s)
    ensures Sorted(r)
    ensures multiset(r) == multiset(s) + multiset{x}
  {
    if s == [] || NotAfter(x.ts, s[0].ts) then
      assert forall j :: 0 <= j < |s| ==> NotAfter(s[0].ts, s[j].ts);
      [x] + s
    else
      var rest := Insert(x, s[1..]);
      ConsAfterInsert(x, s, rest);
      [s[0]] + rest
  }

  /** Putting the head back in front of the insertion into the tail keeps the order. */
  lemma ConsAfterInsert(x: Record, s: seq<Record>, rest: seq<Record>)
    requires Sorted(s) && s != [] && !NotAfter(x.ts, s[0].ts)
    requires Sorted(rest) && multiset(rest) == multiset(s[1..]) + multiset{x}
    ensures Sorted([s[0]] + rest)
    ensures multiset([s[0]] + rest) == multiset(s) + multiset{x}
  {
    HeadBelowTail(s);
    forall y | y in rest ensures NotAfter(s[0].ts, y.ts) {
      assert y in multiset(rest);
    }
    assert forall j :: 0 <= j < |rest| ==> rest[j] in rest;
    assert s == [s[0]] + s[1..];
  }

  lemma HeadBelowTail(s: seq<Record>)
    requires Sorted(s) && s != []
    ensures forall y :: y in s[1..] ==> NotAfter(s[0].ts, y.ts)
  {
    forall y | y in s[1..] ensures NotAfter(s[0].ts, y.ts) {
      var j :| 0 <= j < |s[1..]| && s[1..][j] == y;
      assert s[j + 1] == y;
    }
  }

  /** `data.sort_index()`: ascending by timestamp, the same records. */
  function SortByTime(s: seq<Record>): (r: seq<Record>)
    ensures Sorted(r)
    ensures multiset(r) == multiset(s)
  {
    if s == [] then []
    else
      assert s == [s[0]] + s[1..];
      Insert(s[0], SortByTime(s[1..]))
  }

  // ---- the label slice ------------------------------------------------------

  /** `searchsorted(t, side='left')`: the records before the returned position lie before `t`. */
  function SearchLeft(s: seq<Record>, t: Timestamp): (i: nat)
    ensures i <= |s|
    ensures forall k :: 0 <= k < i ==> Before(s[k].ts, t)
    ensures Sorted(s) ==> forall k :: i <= k < |s| ==> !Before(s[k].ts, t)
  {
    if s == [] || !Before(s[0].ts, t) then 0 else 1 + SearchLeft(s[1..], t)
  }

  /** `searchsorted(t, side='right')`: the records before the returned position do not lie after `t`. */
  function SearchRight(s: seq<Record>, t: Timestamp): (i: nat)
    ensures i <= |s|
    ensures forall k :: 0 <= k < i ==> NotAfter(s[k].ts, t)
    ensures Sorted(s) ==> forall k :: i <= k < |s| ==> Before(t, s[k].ts)
  {
    if s == [] || Before(t, s[0].ts) then 0 else 1 + SearchRight(s[1..], t)
  }

  /** `data.loc[start:end]` on a sorted index: the positions from the left search for `start` to the right search for `end`. */
  function SliceBetween(s: seq<Record>, start: Timestamp, end: Timestamp): (r: seq<Record>)
    ensures |r| <= |s|
    ensures forall k :: 0 <= k < |r| ==> NotAfter(r[k].ts, end)
    ensures Sorted(s) ==> forall k :: 0 <= k < |r| ==> InWindow(r[k].ts, start, end)
  {
    var lo, hi := SearchLeft(s, start), SearchRight(s, end);
    if lo <= hi then s[lo..hi] else []
  }

  /** Reference definition: the records of `s` inside the closed window, in their order in `s`. */
  function Within(s: seq<Record>, start: Timestamp, end: Timestamp): seq<Record>
  {
    if s == [] then []
    else (if InWindow(s[0].ts, start, end) then [s[0]] else []) + Within(s[1..], start, end)
  }

  lemma {:induction false} WithinNone(s: seq<Record>, start: Timestamp, end: Timestamp)
    requires forall k :: 0 <= k < |s| ==> !InWindow(s[k].ts, start, end)
    ensures Within(s, start, end) == []
  {
    if s != [] {
      WithinNone(s[1..], start, end);
    }
  }

  lemma {:induction false} WithinAll(s: seq<Record>, start: Timestamp, end: Timestamp)
    requires forall k :: 0 <= k < |s| ==> InWindow(s[k].ts, start, end)
    ensures Within(s, start, end) == s
  {
    if s != [] {
      WithinAll(s[1..], start, end);
      assert s == [s[0]] + s[1..];
    }
  }

  /** A record is kept exactly when it belongs to `s` and lies in the window. */
  lemma {:induction false} WithinMembers(s: seq<Record>, start: Timestamp, end: Timestamp, x: Record)
    ensures x in Within(s, start, end) <==> x in s && InWindow(x.ts, start, end)
  {
    if s != [] {
      WithinMembers(s[1..], start, end, x);
      assert s == [s[0]] + s[1..];
    }
  }

  /** The kept records of a sorted series stay sorted and all lie in the window. */
  lemma WithinSortedInWindow(s: seq<Record>, start: Timestamp, end: Timestamp)
    requires Sorted(s)
    ensures Sorted(SliceBetween(s, start, end))
    ensures forall k :: 0 <= k < |Within(s, start, end)| ==> InWindow(Within(s, start, end)[k].ts, start, end)
  {
    var w := Within(s, start, end);
    forall k | 0 <= k < |w| ensures InWindow(w[k].ts, start, end) {
      WithinMembers(s, start, end, w[k]);
    }
  }

  /** A record before the start is skipped by both searches alike. */
  lemma SliceSkipsHead(s: seq<Record>, start: Timestamp, end: Timestamp)
    requires s != [] && Before(s[0].ts, start) && !Before(end, s[0].ts)
    ensures SliceBetween(s, start, end) == SliceBetween(s[1..], start, end)
  {
    var lo, hi := SearchLeft(s[1..], start), SearchRight(s[1..], end);
    if lo <= hi {
      assert s[lo + 1..hi + 1] == s[1..][lo..hi];
    }
  }

  /** A record inside the window heads the slice when the search for the start stops at it. */
  lemma SliceKeepsHead(s: seq<Record>, start: Timestamp, end: Timestamp)
    requires s != [] && !Before(s[0].ts, start) && !Before(end, s[0].ts)
    requires SearchLeft(s[1..], start) == 0
    ensures SliceBetween(s, start, end) == [s[0]] + SliceBetween(s[1..], start, end)
  {
    var hi := SearchRight(s[1..], end);
    assert s[0..hi + 1] == [s[0]] + s[1..][0..hi];
  }

  /** On a sorted series the label slice is exactly the records inside the window. */
  lemma {:induction false} SliceIsWithin(s: seq<Record>, start: Timestamp, end: Timestamp)
    requires Sorted(s)
    ensures SliceBetween(s, start, end) == Within(s, start, end)
  {
    if s == [] {
      return;
    }
    var tail := s[1..];
    assert Sorted(tail);
    if Before(end, s[0].ts) {
      // Everything lies after the end: the right search stops at once.
      forall k | 0 <= k < |s| ensures !InWindow(s[k].ts, start, end) {
        OrderIsTotal(end, s[0].ts, s[k].ts);
      }
      WithinNone(s, start, end);
    } else if Before(s[0].ts, start) {
      SliceIsWithin(tail, start, end);
      SliceSkipsHead(s, start, end);
    } else {
      SliceIsWithin(tail, start, end);
      if tail != [] {
        OrderIsTotal(start, s[0].ts, tail[0].ts);
      }
      SliceKeepsHead(s, start, end);
    }
  }

  // ---- filter_by_date_range -------------------------------------------------

  /**
   * The extremes of a pandas `Timestamp` (nanoseconds since 1970 in 64 bits),
   * to the second: the minimum lies 0.145224193 s after the first instant and the
   * maximum 0.854775807 s after the second, so the first is just out of range and
   * the second just inside it.
   */
  const JustBeforeEarliest: DateTime := DateTime(1677, 9, 21, 0, 12, 43)
  const Latest: DateTime := DateTime(2262, 4, 11, 23, 47, 16)

  predicate InNanosecondRange(t: DateTime) {
    Before(JustBeforeEarliest, t) && NotAfter(t, Latest)
  }

  /** The dates whose midnight a pandas timestamp can hold: 1677-09-22 to 2262-04-11. */
  predicate InTimestampRange(d: Date) {
    !DateBefore(d, Date(1677, 9, 22)) && !DateBefore(Date(2262, 4, 11), d)
  }

  lemma MidnightInNanosecondRange(d: CalendarDate)
    ensures InNanosecondRange(Midnight(d)) <==> InTimestampRange(d)
  {
  }

  datatype FilterError = OutOfBoundsDatetime(bound: CalendarDate)

  /**
   * `pd.to_datetime(date)` as pandas 1.x and 2.x do it, parsing text to nanosecond
   * timestamps only: midnight of the date, or `OutOfBoundsDatetime` when no such
   * timestamp holds it. From pandas 3.0 the unit is inferred from the text and
   * every date here converts.
   */
  function ToDatetime(d: CalendarDate): (r: Result<Timestamp, FilterError>)
    ensures r.Success? <==> InTimestampRange(d)
    ensures r.Success? ==> r.value == Midnight(d)
    ensures r.Failure? ==> r.error == OutOfBoundsDatetime(d)
  {
    MidnightInNanosecondRange(d);
    if InNanosecondRange(Midnight(d)) then Success(Midnight(d)) else Failure(OutOfBoundsDatetime(d))
  }

  /**
   * Lines after the conversion: the records of the sorted series from midnight of the
   * start date up to and including midnight of the end date.
   */
  function SelectWindow(data: seq<Record>, startDate: CalendarDate, endDate: CalendarDate): (r: seq<Record>)
    ensures Sorted(r)
    ensures forall k :: 0 <= k < |r| ==> InWindow(r[k].ts, Midnight(startDate), Midnight(endDate))
    ensures r == Within(SortByTime(data), Midnight(startDate), Midnight(endDate))
  {
    var sorted := SortByTime(data);
    SliceIsWithin(sorted, Midnight(startDate), Midnight(endDate));
    WithinSortedInWindow(sorted, Midnight(startDate), Midnight(endDate));
    SliceBetween(sorted, Midnight(startDate), Midnight(endDate))
  }

  /**
   * `filter_by_date_range(data, start_date, end_date)`: the start date is converted
   * first, then the end date; either may raise `OutOfBoundsDatetime`; otherwise the window.
   */
  function FilterByDateRange(data: seq<Record>, startDate: CalendarDate, endDate: CalendarDate)
    : (r: Result<seq<Record>, FilterError>)
    ensures r.Success? <==> InTimestampRange(startDate) && InTimestampRange(endDate)
    ensures r.Failure? ==> r.error == OutOfBoundsDatetime(if InTimestampRange(startDate) then endDate else startDate)
    ensures r.Success? ==> r.value == SelectWindow(data, startDate, endDate)
  {
    match ToDatetime(startDate)
    case Failure(e) => Failure(e)
    case Success(_) =>
      match ToDatetime(endDate)
      case Failure(e) => Failure(e)
      case Success(_) => Success(SelectWindow(data, startDate, endDate))
  }

  // ---- properties -------------------------------------------------------------

  lemma {:induction false} InsertKeepsUnique(x: Record, s: seq<Record>)
    requires Sorted(s) && UniqueTimes(s)
    requires forall y :: y in s ==> y.ts != x.ts
    ensures UniqueTimes(Insert(x, s))
  {
    if s != [] && !NotAfter(x.ts, s[0].ts) {
      assert forall y :: y in s[1..] ==> y in s;
      InsertKeepsUnique(x, s[1..]);
      var rest := Insert(x, s[1..]);
      HeadTimeUnique(s);
      forall y | y in rest ensures y.ts != s[0].ts {
        assert y in multiset(rest);
      }
      assert forall j :: 0 <= j < |rest| ==> rest[j] in rest;
    }
  }

  lemma HeadTimeUnique(s: seq<Record>)
    requires UniqueTimes(s) && s != []
    ensures forall y :: y in s[1..] ==> y.ts != s[0].ts
  {
    forall y | y in s[1..] ensures y.ts != s[0].ts {
      var j :| 0 <= j < |s[1..]| && s[1..][j] == y;
      assert s[j + 1] == y;
    }
  }

  /** Sorting keeps timestamps distinct. */
  lemma {:induction false} SortKeepsUnique(s: seq<Record>)
    requires UniqueTimes(s)
    ensures UniqueTimes(SortByTime(s))
  {
    if s != [] {
      var tail := s[1..];
      SortKeepsUnique(tail);
      forall y | y in SortByTime(tail) ensures y.ts != s[0].ts {
        assert y in multiset(SortByTime(tail));
        assert y in multiset(tail);
        var j :| 0 <= j < |tail| && tail[j] == y;
        assert s[j + 1] == y;
      }
      InsertKeepsUnique(s[0], SortByTime(tail));
    }
  }

  /** Sorting an already sorted series changes nothing. */
  lemma {:induction false} SortSorted(s: seq<Record>)
    requires Sorted(s)
    ensures SortByTime(s) == s
  {
    if s != [] {
      SortSorted(s[1..]);
      assert s == [s[0]] + s[1..];
    }
  }

  lemma {:induction false} WithinInsert(x: Record, s: seq<Record>, start: Timestamp, end: Timestamp)
    requires Sorted(s)
    ensures multiset(Within(Insert(x, s), start, end)) == multiset(Within([x] + s, start, end))
  {
    if s != [] && !NotAfter(x.ts, s[0].ts) {
      WithinInsert(x, s[1..], start, end);
      assert ([x] + s)[1..] == s;
      assert ([x] + s[1..])[1..] == s[1..];
      assert s == [s[0]] + s[1..];
      assert ([s[0]] + Insert(x, s[1..]))[1..] == Insert(x, s[1..]);
    } else {
      assert Insert(x, s) == [x] + s;
    }
  }

  /** Sorting first does not change which records, with their multiplicities, lie in the window. */
  lemma {:induction false} WithinSort(s: seq<Record>, start: Timestamp, end: Timestamp)
    ensures multiset(Within(SortByTime(s), start, end)) == multiset(Within(s, start, end))
  {
    if s != [] {
      WithinSort(s[1..], start, end);
      WithinInsert(s[0], SortByTime(s[1..]), start, end);
      assert ([s[0]] + SortByTime(s[1..]))[1..] == SortByTime(s[1..]);
    }
  }

  lemma AscendingHeadsAgree(p: seq<Record>, q: seq<Record>)
    requires StrictlyAscending(p) && StrictlyAscending(q)
    requires p != [] && q != [] && multiset(p) == multiset(q)
    ensures p[0] == q[0]
  {
    assert p[0] in multiset(q) && q[0] in multiset(p);
    var j :| 0 <= j < |q| && q[j] == p[0];
    var i :| 0 <= i < |p| && p[i] == q[0];
    if p[0] != q[0] {
      OrderIsTotal(p[0].ts, q[0].ts, p[0].ts);
    }
  }

  lemma SameHeadSameTails(p: seq<Record>, q: seq<Record>)
    requires p != [] && q != [] && p[0] == q[0] && multiset(p) == multiset(q)
    ensures multiset(p[1..]) == multiset(q[1..])
  {
    assert p == [p[0]] + p[1..] && q == [q[0]] + q[1..];
    assert multiset(p) == multiset([p[0]]) + multiset(p[1..]);
    assert multiset(q) == multiset([p[0]]) + multiset(q[1..]);
    forall y ensures multiset(p[1..])[y] == multiset(q[1..])[y] {
      assert multiset(p)[y] == multiset(q)[y];
    }
  }

  /** Two strictly ascending arrangements of the same records are the same sequence. */
  lemma {:induction false} AscendingArrangementUnique(p: seq<Record>, q: seq<Record>)
    requires StrictlyAscending(p) && StrictlyAscending(q)
    requires multiset(p) == multiset(q)
    ensures p == q
  {
    if p == [] {
      assert |q| == |multiset(q)| == 0;
    } else {
      assert q != [] by { assert p[0] in multiset(q); }
      AscendingHeadsAgree(p, q);
      SameHeadSameTails(p, q);
      AscendingArrangementUnique(p[1..], q[1..]);
      assert p == [p[0]] + p[1..] && q == [q[0]] + q[1..];
    }
  }

  /**
   * With distinct timestamps the result is strictly ascending: each record's
   * timestamp is later than the one before it.
   */
  lemma FilterStrictlyAscending(data: seq<Record>, startDate: CalendarDate, endDate: CalendarDate)
    requires UniqueTimes(data)
    ensures StrictlyAscending(SelectWindow(data, startDate, endDate))
  {
    var sorted := SortByTime(data);
    var a, b := Midnight(startDate), Midnight(endDate);
    SortKeepsUnique(data);
    SliceIsWithin(sorted, a, b);
    var r := SelectWindow(data, startDate, endDate);
    assert UniqueTimes(r);
  }

  /**
   * Completeness and soundness: a record is in the result exactly when it is a
   * record of the input whose timestamp lies between the two midnights.
   */
  lemma FilterMembers(data: seq<Record>, startDate: CalendarDate, endDate: CalendarDate, x: Record)
    ensures x in SelectWindow(data, startDate, endDate)
        <==> x in data && InWindow(x.ts, Midnight(startDate), Midnight(endDate))
  {
    WithinMembers(SortByTime(data), Midnight(startDate), Midnight(endDate), x);
    assert x in SortByTime(data) <==> x in multiset(data);
  }

  /** The result holds the input's in-window records, each as often as the input does: it is a rearrangement of them. */
  lemma FilterPermutesWindow(data: seq<Record>, startDate: CalendarDate, endDate: CalendarDate)
    ensures multiset(SelectWindow(data, startDate, endDate)) == multiset(Within(data, Midnight(startDate), Midnight(endDate)))
  {
    WithinSort(data, Midnight(startDate), Midnight(endDate));
  }

  /**
   * Reference characterisation: for a series with distinct timestamps, the result
   * is the one strictly ascending sequence made of the in-window records.
   */
  lemma FilterIsAscendingWindow(data: seq<Record>, startDate: CalendarDate, endDate: CalendarDate, q: seq<Record>)
    requires UniqueTimes(data)
    requires StrictlyAscending(q)
    requires multiset(q) == multiset(Within(data, Midnight(startDate), Midnight(endDate)))
    ensures q == SelectWindow(data, startDate, endDate)
  {
    FilterStrictlyAscending(data, startDate, endDate);
    FilterPermutesWindow(data, startDate, endDate);
    AscendingArrangementUnique(q, SelectWindow(data, startDate, endDate));
  }

  /** Bounds beyond the data are clipped: a window covering every timestamp returns the whole series, sorted. */
  lemma FilterWholeSeries(data: seq<Record>, startDate: CalendarDate, endDate: CalendarDate)
    requires forall k :: 0 <= k < |data| ==> InWindow(data[k].ts, Midnight(startDate), Midnight(endDate))
    ensures SelectWindow(data, startDate, endDate) == SortByTime(data)
  {
    var sorted := SortByTime(data);
    forall k | 0 <= k < |sorted| ensures InWindow(sorted[k].ts, Midnight(startDate), Midnight(endDate)) {
      assert sorted[k] in multiset(data);
    }
    WithinAll(sorted, Midnight(startDate), Midnight(endDate));
  }

  /** A window that holds no timestamp of the series gives the empty series, not an error. */
  lemma FilterEmptyWindow(data: seq<Record>, startDate: CalendarDate, endDate: CalendarDate)
    requires forall k :: 0 <= k < |data| ==> !InWindow(data[k].ts, Midnight(startDate), Midnight(endDate))
    ensures SelectWindow(data, startDate, endDate) == []
  {
    var sorted := SortByTime(data);
    forall k | 0 <= k < |sorted| ensures !InWindow(sorted[k].ts, Midnight(startDate), Midnight(endDate)) {
      assert sorted[k] in multiset(data);
    }
    WithinNone(sorted, Midnight(startDate), Midnight(endDate));
  }

  /** Filtering the result again with the same dates gives it back unchanged. */
  lemma FilterIdempotent(data: seq<Record>, startDate: CalendarDate, endDate: CalendarDate)
    ensures SelectWindow(SelectWindow(data, startDate, endDate), startDate, endDate)
         == SelectWindow(data, startDate, endDate)
  {
    var r := SelectWindow(data, startDate, endDate);
    SortSorted(r);
    WithinAll(r, Midnight(startDate), Midnight(endDate));
  }

  /**
   * The end bound is midnight of the end date: of the records dated on the end
   * date, only one stamped exactly midnight can be kept.
   */
  lemma FilterDropsEndDayAfterMidnight(data: seq<Record>, startDate: CalendarDate, endDate: CalendarDate, x: Record)
    requires DateOf(x.ts) == endDate
    requires x.ts.hour != 0 || x.ts.minute != 0 || x.ts.second != 0
    ensures x !in SelectWindow(data, startDate, endDate)
  {
    FilterMembers(data, startDate, endDate, x);
  }

  /**
   * Example: a daily series with 2023-01-01 and 2023-01-03, filtered to
   * 2023-01-02..2023-01-03, keeps only the 2023-01-03 record.
   */
  lemma DailyExample(c1: seq<Cell>, c3: seq<Cell>)
    ensures var jan1 := Record(DateTime(2023, 1, 1, 0, 0, 0), c1);
            var jan3 := Record(DateTime(2023, 1, 3, 0, 0, 0), c3);
            FilterByDateRange([jan3, jan1], Date(2023, 1, 2), Date(2023, 1, 3)) == Success([jan3])
  {
    var jan1 := Record(DateTime(2023, 1, 1, 0, 0, 0), c1);
    var jan3 := Record(DateTime(2023, 1, 3, 0, 0, 0), c3);
    DailyExampleSorted(jan1, jan3);
    DailyExampleWindow(jan1, jan3);
    assert InTimestampRange(Date(2023, 1, 2)) && InTimestampRange(Date(2023, 1, 3));
    assert SelectWindow([jan3, jan1], Date(2023, 1, 2), Date(2023, 1, 3)) == [jan3];
  }

  lemma DailyExampleSorted(jan1: Record, jan3: Record)
    requires jan1.ts == DateTime(2023, 1, 1, 0, 0, 0) && jan3.ts == DateTime(2023, 1, 3, 0, 0, 0)
    ensures SortByTime([jan3, jan1]) == [jan1, jan3]
  {
    assert SortByTime([jan1]) == [jan1];
    assert [jan3, jan1][1..] == [jan1];
  }

  lemma DailyExampleWindow(jan1: Record, jan3: Record)
    requires jan1.ts == DateTime(2023, 1, 1, 0, 0, 0) && jan3.ts == DateTime(2023, 1, 3, 0, 0, 0)
    ensures Within([jan1, jan3], Midnight(Date(2023, 1, 2)), Midnight(Date(2023, 1, 3))) == [jan3]
  {
    var start, end := Midnight(Date(2023, 1, 2)), Midnight(Date(2023, 1, 3));
    assert Within([jan3], start, end) == [jan3];
    assert [jan1, jan3][1..] == [jan3];
  }

  /** Example: an intraday bar at 10:00 on the end date falls outside the window. */
  lemma IntradayExample(c: seq<Cell>)
    ensures var bar := Record(DateTime(2023, 3, 10, 10, 0, 0), c);
            FilterByDateRange([bar], Date(2023, 3, 1), Date(2023, 3, 10)) == Success([])
  {
  }

  /**
   * Dates `validate_date` accepts can still be refused by the conversion: year 1000
   * as a start date, and 9999-12-31 as an end date.
   */
  lemma OutOfBoundsExample(data: seq<Record>)
    ensures Validators.ValidateDate("1000-01-01") && Validators.ValidateDate("9999-12-31")
    ensures FilterByDateRange(data, Date(1000, 1, 1), Date(2023, 1, 1)) == Failure(OutOfBoundsDatetime(Date(1000, 1, 1)))
    ensures FilterByDateRange(data, Date(2023, 1, 1), Date(9999, 12, 31)) == Failure(OutOfBoundsDatetime(Date(9999, 12, 31)))
  {
    Validators.FieldsOfParts("1000", "01", "01");
    assert "1000-01-01" == "1000" + "-" + "01" + "-" + "01";
    Validators.FieldsOfParts("9999", "12", "31");
    assert "9999-12-31" == "9999" + "-" + "12" + "-" + "31";
  }

  /** The first and last dates a pandas timestamp holds are accepted as bounds; the days beyond them are not. */
  lemma TimestampRangeEdges()
    ensures InTimestampRange(Date(1677, 9, 22)) && InTimestampRange(Date(2262, 4, 11))
    ensures !InTimestampRange(Date(1677, 9, 21)) && !InTimestampRange(Date(2262, 4, 12))
  {
  }
}
