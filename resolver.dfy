/**
 * The granularity resolver: the selector the user types (1 to 4) chosen among
 * intraday, daily, weekly and monthly series, and the provider query each one
 * issues (the dispatch in `get_data`). `get_data` never reads `time_series_dict`;
 * the model uses that dictionary as the table of the function names sent by the
 * provider calls `get_intraday`, `get_daily`, `get_weekly` and `get_monthly`.
 */
module Resolver {
  import opened Wrappers
  import opened Timestamps
  import Validators

  datatype Granularity = Intraday | Daily | Weekly | Monthly

  /**
   * One provider query: the provider's function name, the bar interval (intraday
   * only) and the `outputsize` option where one is passed.
   */
  datatype Query = Query(functionName: string, interval: Option<string>, outputSize: Option<string>)

  /** The selector numbering of the prompt: 1 intraday, 2 daily, 3 weekly, 4 monthly. */
  function GranularityOf(selector: int): (g: Option<Granularity>)
    ensures g.Some? <==> 1 <= selector <= 4
  {
    if selector == 1 then Some(Intraday)
    else if selector == 2 then Some(Daily)
    else if selector == 3 then Some(Weekly)
    else if selector == 4 then Some(Monthly)
    else None
  }

  function SelectorOf(g: Granularity): int {
    match g
    case Intraday => 1
    case Daily => 2
    case Weekly => 3
    case Monthly => 4
  }

  /**
   * The provider function name for each granularity, as listed in `time_series_dict`
   * and as sent by the provider call of the matching `get_data` branch.
   */
  function FunctionName(g: Granularity): (name: string)
    ensures |name| > 12 && name[..12] == "TIME_SERIES_"
  {
    match g
    case Intraday => "TIME_SERIES_INTRADAY"
    case Daily => "TIME_SERIES_DAILY"
    case Weekly => "TIME_SERIES_WEEKLY"
    case Monthly => "TIME_SERIES_MONTHLY"
  }

  /** The query each branch of `get_data` issues. */
  function QueryFor(g: Granularity): (q: Query)
    ensures q.functionName == FunctionName(g)
    ensures q.interval.Some? <==> g == Intraday
    ensures q.outputSize.Some? <==> g == Intraday || g == Daily
  {
    match g
    case Intraday => Query(FunctionName(g), Some("60min"), Some("full"))
    case Daily => Query(FunctionName(g), None, Some("full"))
    case Weekly => Query(FunctionName(g), None, None)
    case Monthly => Query(FunctionName(g), None, None)
  }

  /**
   * `get_data`'s dispatch on the selector; a selector outside 1..4 matches no branch
   * and no query is issued.
   */
  function Resolve(selector: int): (q: Option<Query>)
    ensures q.Some? <==> 1 <= selector <= 4
    ensures selector == 1 ==> q == Some(Query("TIME_SERIES_INTRADAY", Some("60min"), Some("full")))
    ensures selector == 2 ==> q == Some(Query("TIME_SERIES_DAILY", None, Some("full")))
    ensures selector == 3 ==> q == Some(Query("TIME_SERIES_WEEKLY", None, None))
    ensures selector == 4 ==> q == Some(Query("TIME_SERIES_MONTHLY", None, None))
  {
    match GranularityOf(selector)
    case Some(g) => Some(QueryFor(g))
    case None => None
  }

  /** The selector numbering is a bijection between 1..4 and the four granularities. */
  lemma SelectorRoundTrip(g: Granularity, selector: int)
    ensures GranularityOf(SelectorOf(g)) == Some(g)
    ensures GranularityOf(selector) == Some(g) ==> SelectorOf(g) == selector
  {
  }

  /**
   * Only the intraday query carries an interval, and it is 60 minutes; only the
   * intraday and daily queries ask for the full history.
   */
  lemma QueryOptions(selector: int)
    requires 1 <= selector <= 4
    ensures Resolve(selector).value.interval.Some? <==> selector == 1
    ensures Resolve(selector).value.interval.Some? ==> Resolve(selector).value.interval.value == "60min"
    ensures Resolve(selector).value.outputSize == Some("full") <==> selector <= 2
    ensures Resolve(selector).value.outputSize.None? <==> selector >= 3
  {
  }

  /** The four function names are distinct, so each granularity is asked for by its own name. */
  lemma FunctionNameInjective(a: Granularity, b: Granularity)
    requires FunctionName(a) == FunctionName(b)
    ensures a == b
  {
    assert FunctionName(a)[12] == FunctionName(b)[12];
  }

  /** Distinct selectors issue distinct queries: the four series are never confused. */
  lemma ResolveInjective(a: int, b: int)
    requires Resolve(a).Some? && Resolve(b).Some? && Resolve(a) == Resolve(b)
    ensures a == b
  {
  }

  /**
   * Every text `validate_time_series` accepts converts (by `int`) to a selector the
   * resolver accepts, and every selector the resolver accepts has such a text.
   */
  lemma {:induction false} ValidatedSelectorResolves(text: string)
    ensures Validators.ValidateTimeSeries(text) <==> |text| == 1 && IsDigit(text[0]) && Resolve(DigitValue(text[0])).Some?
  {
    if |text| == 1 && IsDigit(text[0]) && Resolve(DigitValue(text[0])).Some? {
      var k := DigitValue(text[0]);
      assert text == [DigitChar(k)];
      assert k == 1 || k == 2 || k == 3 || k == 4;
    }
  }
}
