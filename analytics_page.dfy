/** The analytics page (`pages/Analytics.jsx`): when a date-range request is made and
    with which parameters, and the percentages and total of the category breakdown
    table. Its month picker is the shared `MonthNavigation.MonthSelector`. Server
    numbers (floats) are reals here. */
module AnalyticsPage {
  import opened Wrappers

  const CustomRange := "custom"

  /** `fetchRangeAnalytics`: the request parameters, or `None` when a custom range
      lacks one of its dates and no request is made. */
  method RangeParams(rangeType: string, customStart: string, customEnd: string)
    returns (params: Option<map<string, string>>)
    ensures params.None? <==> rangeType == CustomRange && (customStart == "" || customEnd == "")
    ensures params.Some? ==> "range" in params.value && params.value["range"] == rangeType
    ensures params.Some? && rangeType != CustomRange ==> params.value == map["range" := rangeType]
    ensures params.Some? && rangeType == CustomRange ==>
              params.value == map["range" := rangeType, "start_date" := customStart, "end_date" := customEnd]
  {
    var p := map["range" := rangeType];
    if rangeType == CustomRange {
      if customStart == "" || customEnd == "" {
        return None;
      }
      p := p["start_date" := customStart];
      p := p["end_date" := customEnd];
    }
    params := Some(p);
  }

  /** The effect that runs when the range type or the view mode changes: in range mode
      it fetches a preset range by itself, with the preset as the only parameter; a
      custom range waits for its dates and the explicit fetch. */
  method RangeEffect(viewMode: string, rangeType: string, customStart: string, customEnd: string)
    returns (params: Option<map<string, string>>)
    ensures params.Some? <==> viewMode == "range" && rangeType != CustomRange
    ensures params.Some? ==> params.value == map["range" := rangeType]
  {
    params := None;
    if viewMode == "range" && rangeType != CustomRange {
      params := RangeParams(rangeType, customStart, customEnd);
    }
  }

  /** A row of `charts.expense_by_category`; a missing or zero percentage is `None` or
      `Some(0.0)`. */
  datatype Slice = Slice(name: string, value: real, percentage: Option<real>)

  /** The footer total, `reduce((sum, i) => sum + i.value, 0)`. */
  function Total(items: seq<Slice>): real {
    if items == [] then 0.0 else Total(items[..|items| - 1]) + items[|items| - 1].value
  }

  /** A row's percentage: the server's when it is non-zero, else the row's share of the
      total, or 0 when the total is not positive. */
  function RowPercentage(item: Slice, total: real): (p: real)
    ensures item.percentage.Some? && item.percentage.value != 0.0 ==> p == item.percentage.value
    ensures (item.percentage.None? || item.percentage.value == 0.0) && total > 0.0 ==> p * total == item.value * 100.0
    ensures (item.percentage.None? || item.percentage.value == 0.0) && total <= 0.0 ==> p == 0.0
  {
    if item.percentage.Some? && item.percentage.value != 0.0 then item.percentage.value
    else if total > 0.0 then item.value / total * 100.0
    else 0.0
  }

  function PercentageSum(items: seq<Slice>, total: real): real {
    if items == [] then 0.0 else PercentageSum(items[..|items| - 1], total) + RowPercentage(items[|items| - 1], total)
  }

  predicate NoServerPercentages(items: seq<Slice>) {
    forall i :: 0 <= i < |items| ==> items[i].percentage.None? || items[i].percentage.value == 0.0
  }

  /** Without server percentages the recomputed shares are the values scaled by the
      total. */
  lemma {:induction false} PercentageSumScaled(items: seq<Slice>, total: real)
    requires NoServerPercentages(items) && total > 0.0
    ensures PercentageSum(items, total) * total == Total(items) * 100.0
  {
    if items != [] {
      var prefix := items[..|items| - 1];
      PercentageSumScaled(prefix, total);
      var last := items[|items| - 1];
      assert RowPercentage(last, total) * total == last.value * 100.0;
      calc {
        PercentageSum(items, total) * total;
        PercentageSum(prefix, total) * total + RowPercentage(last, total) * total;
        Total(prefix) * 100.0 + last.value * 100.0;
      }
    }
  }

  /** Without server percentages and with a positive total, the rows' percentages add
      up to the footer's 100%. */
  lemma BreakdownSumsToHundred(items: seq<Slice>)
    requires NoServerPercentages(items) && Total(items) > 0.0
    ensures PercentageSum(items, Total(items)) == 100.0
  {
    var t := Total(items);
    var p := PercentageSum(items, t);
    PercentageSumScaled(items, t);
    calc {
      p;
      p * t / t;
      Total(items) * 100.0 / t;
      100.0;
    }
  }
}
