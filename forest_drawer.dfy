/** The country forest drawer: the fetch effect that stores the year-sorted series and the
    first-year forest baseline, and the interpretation sentences drawn from them. */
module ForestDrawer {
  import opened Wrappers
  import opened Http
  import opened Sequences

  /** One row of `/timeseries/{country}`; a null `forest_land_BiocapPerCap` is `None`. */
  datatype SeriesPoint = SeriesPoint(year: int, protectedPct: real, forest: Option<real>)

  /** The sort key of `[...data].sort((a, b) => a.year - b.year)`, which is `SortBy(data, Year)`. */
  function Year(p: SeriesPoint): int {
    p.year
  }

  /** A forest value used as a condition: present and non-zero. */
  predicate TruthyForest(v: Option<real>) {
    v.Some? && v.value != 0.0
  }

  /** The baseline after storing `sorted`: its first row's forest value when truthy, otherwise
      the baseline already held. */
  function NextBaseline(sorted: seq<SeriesPoint>, previous: Option<real>): (r: Option<real>)
    requires |sorted| > 0
    ensures TruthyForest(sorted[0].forest) ==> r == sorted[0].forest
    ensures !TruthyForest(sorted[0].forest) ==> r == previous
  {
    if TruthyForest(sorted[0].forest) then sorted[0].forest else previous
  }

  /** When the baseline is taken from a response, it is the forest value of a row of that
      response whose year no other row precedes. */
  lemma BaselineIsEarliest(rows: seq<SeriesPoint>, previous: Option<real>)
    requires |rows| > 0 && TruthyForest(SortBy(rows, Year)[0].forest)
    ensures exists p :: (p in rows && NextBaseline(SortBy(rows, Year), previous) == p.forest &&
                         forall q :: q in rows ==> p.year <= q.year)
  {
    SortByFirstIsLeast(rows, Year);
  }

  const NoDataMessage := "No timeseries data available for this country"
  const FailureMessage := "Failed to load timeseries data"

  // ---------------------------------------------------------------------------
  // interpretation
  // ---------------------------------------------------------------------------

  /** The word of the 15% sentence. The `>= 15` branch selects its word with a second
      `>= 15` test, which always yields "above" there. */
  function ThresholdWord(protectedPct: real): string {
    if protectedPct >= 15.0 then (if protectedPct >= 15.0 then "above" else "below") else "below"
  }

  /** The sentence says "above" exactly when the last share reaches 15%. */
  lemma ThresholdWordSpec(protectedPct: real)
    ensures ThresholdWord(protectedPct) == "above" <==> protectedPct >= 15.0
    ensures ThresholdWord(protectedPct) == "below" <==> protectedPct < 15.0
  {
    assert "above" != "below" by {
      assert "above"[0] != "below"[0];
    }
  }

  /** The forest-change sentence, if any, and the amount it reports. */
  datatype Trend = NoTrend | Decreased(amount: real) | Increased(amount: real)

  /** Lines 339-347: with a baseline, "decreased by baseline - last" when the last value is
      below it, otherwise "increased by last - baseline"; a null last value takes part in both
      as JavaScript's 0. */
  function ForestTrend(baseline: Option<real>, last: Option<real>): (r: Trend)
    ensures r.NoTrend? <==> baseline.None?
    ensures r.Decreased? <==> baseline.Some? && last.GetOr(0.0) < baseline.value
    ensures r.Decreased? ==> r.amount > 0.0 && r.amount == baseline.value - last.GetOr(0.0)
    ensures r.Increased? ==> r.amount >= 0.0 && r.amount == last.GetOr(0.0) - baseline.value
  {
    var lastValue := last.GetOr(0.0);
    if baseline.Some? && lastValue < baseline.value then Decreased(baseline.value - lastValue)
    else if baseline.Some? then Increased(lastValue - baseline.value)
    else NoTrend
  }

  // ---------------------------------------------------------------------------
  // the drawer's state
  // ---------------------------------------------------------------------------

  class Drawer {
    var timeseries: seq<SeriesPoint>
    var firstYearForest: Option<real>
    var error: Option<string>
    var loading: bool

    constructor ()
      ensures timeseries == [] && firstYearForest.None? && error.None? && !loading
    {
      timeseries := [];
      firstYearForest := None;
      error := None;
      loading := false;
    }

    /** The fetch effect for `country`, given the response of `/timeseries/{country}`. */
    method OnCountry(country: Option<string>, response: Response<seq<SeriesPoint>>)
      modifies this
      ensures !Truthy(country) ==>
        timeseries == [] && firstYearForest.None? && error == old(error) && loading == old(loading)
      ensures Truthy(country) ==> !loading
      ensures Truthy(country) && response.Ok? && response.data.Some? && |response.data.value| > 0 ==>
        && timeseries == SortBy(response.data.value, Year)
        && firstYearForest == NextBaseline(timeseries, old(firstYearForest))
        && error.None?
      ensures Truthy(country) && response.Ok? && (response.data.None? || |response.data.value| == 0) ==>
        timeseries == old(timeseries) && firstYearForest == old(firstYearForest) && error == Some(NoDataMessage)
      ensures Truthy(country) && response.Failed? ==>
        timeseries == old(timeseries) && firstYearForest == old(firstYearForest) && error == Some(FailureMessage)
      ensures Truthy(country) ==>
        (ShowsInterpretation() <==> response.Ok? && response.data.Some? && |response.data.value| > 0)
    {
      if !Truthy(country) {
        timeseries := [];
        firstYearForest := None;
        return;
      }
      loading := true;
      error := None;
      match response {
        case Ok(body) =>
          if body.Some? && |body.value| > 0 {
            var sortedData := SortBy(body.value, Year);
            if TruthyForest(sortedData[0].forest) {
              firstYearForest := sortedData[0].forest;
            }
            timeseries := sortedData;
          } else {
            error := Some(NoDataMessage);
          }
        case Failed(_) =>
          error := Some(FailureMessage);
      }
      loading := false;
    }

    /** Lines 100-107 and 327: the interpretation is rendered only when the drawer is neither
        loading nor showing an error, and there is data. */
    predicate ShowsInterpretation()
      reads this
    {
      !loading && !Truthy(error) && |timeseries| > 0
    }

    /** The 15% sentence's word, shown with the interpretation; "above" exactly when the last
        row's share reaches 15%. */
    function ShownThreshold(): (r: Option<string>)
      reads this
      ensures r.None? <==> loading || Truthy(error) || |timeseries| == 0
      ensures r == Some("above") <==>
        ShowsInterpretation() && timeseries[|timeseries| - 1].protectedPct >= 15.0
      ensures r == Some("below") <==>
        ShowsInterpretation() && timeseries[|timeseries| - 1].protectedPct < 15.0
    {
      if !ShowsInterpretation() then None
      else
        ThresholdWordSpec(timeseries[|timeseries| - 1].protectedPct);
        Some(ThresholdWord(timeseries[|timeseries| - 1].protectedPct))
    }

    /** The forest-change sentence, shown with the interpretation when there is a baseline:
        "decreased" exactly when the last value is below the baseline. */
    function ShownTrend(): (r: Trend)
      reads this
      ensures r.NoTrend? <==> !ShowsInterpretation() || firstYearForest.None?
      ensures r.Decreased? <==>
        ShowsInterpretation() && firstYearForest.Some? &&
        timeseries[|timeseries| - 1].forest.GetOr(0.0) < firstYearForest.value
      ensures r.Decreased? ==> r.amount == firstYearForest.value - timeseries[|timeseries| - 1].forest.GetOr(0.0) > 0.0
      ensures r.Increased? ==> r.amount == timeseries[|timeseries| - 1].forest.GetOr(0.0) - firstYearForest.value >= 0.0
    {
      if !ShowsInterpretation() then NoTrend
      else ForestTrend(firstYearForest, timeseries[|timeseries| - 1].forest)
    }
  }
}
