/** The ecological-balance drawer: the fetch effect's outcome, the year sort, the latest row,
    the availability flags, the status classification and the balance-line series. */
module EcoBalanceDrawer {
  import opened Wrappers
  import opened Http
  import opened Sequences

  /** One row of `/eco-balance/{country}`; the source-column fields are only displayed. */
  datatype BalancePoint = BalancePoint(year: int, percap: Option<real>, total: Option<real>)

  function Year(p: BalancePoint): int {
    p.year
  }

  /** `[...data].sort((a, b) => a.year - b.year)`. */
  function SortByYear(data: seq<BalancePoint>): (r: seq<BalancePoint>)
    ensures SortedBy(r, Year) && multiset(r) == multiset(data) && |r| == |data|
  {
    SortBy(data, Year)
  }

  // ---------------------------------------------------------------------------
  // status
  // ---------------------------------------------------------------------------

  datatype Status = Unknown | Reserve | Deficit | Balanced {
    function Text(): string {
      match this
      case Unknown => "Unknown"
      case Reserve => "Ecological Reserve"
      case Deficit => "Ecological Deficit"
      case Balanced => "Balanced"
    }

    function Color(): string {
      match this
      case Unknown => "text-zinc-400"
      case Reserve => "text-green-400"
      case Deficit => "text-red-400"
      case Balanced => "text-yellow-400"
    }
  }

  /** `getStatus`: unknown without a value, otherwise by the sign of the balance. */
  function GetStatus(balance: Option<real>): (r: Status)
    ensures r == Unknown <==> balance.None?
    ensures r == Reserve <==> balance.Some? && balance.value > 0.0
    ensures r == Deficit <==> balance.Some? && balance.value < 0.0
    ensures r == Balanced <==> balance == Some(0.0)
  {
    if balance.None? then Unknown
    else if balance.value > 0.0 then Reserve
    else if balance.value < 0.0 then Deficit
    else Balanced
  }

  // ---------------------------------------------------------------------------
  // derived view data
  // ---------------------------------------------------------------------------

  /** `latestData`: the last row, or null for no data. */
  function LatestData(data: seq<BalancePoint>): (r: Option<BalancePoint>)
    ensures r.None? <==> |data| == 0
    ensures r.Some? ==> r.value == data[|data| - 1]
  {
    if |data| > 0 then Some(data[|data| - 1]) else None
  }

  /** The status shown: that of the latest row's per-capita balance. */
  function PerCapStatus(data: seq<BalancePoint>): (r: Status)
    ensures r == Unknown <==> |data| == 0 || data[|data| - 1].percap.None?
  {
    GetStatus(if |data| > 0 then data[|data| - 1].percap else None)
  }

  predicate HasPerCap(data: seq<BalancePoint>) {
    exists i :: 0 <= i < |data| && data[i].percap.Some?
  }

  predicate DefinedPerCap(p: BalancePoint) {
    p.percap.Some?
  }

  /** The balance line: the rows with a defined per-capita balance. */
  function BalanceSeries(data: seq<BalancePoint>): (r: seq<BalancePoint>)
    ensures forall p :: p in r <==> p in data && p.percap.Some?
  {
    assert forall p :: p in Filter(data, DefinedPerCap) <==> p in data && p.percap.Some? by {
      forall p
        ensures p in Filter(data, DefinedPerCap) <==> p in data && p.percap.Some?
      {
        FilterMembership(data, DefinedPerCap, p);
      }
    }
    Filter(data, DefinedPerCap)
  }

  /** The per-capita line is drawn exactly when `hasPerCap` holds. */
  lemma HasPerCapSeries(data: seq<BalancePoint>)
    ensures HasPerCap(data) <==> |BalanceSeries(data)| > 0
  {
    if HasPerCap(data) {
      var i :| 0 <= i < |data| && data[i].percap.Some?;
      assert data[i] in BalanceSeries(data);
    }
    if |BalanceSeries(data)| > 0 {
      var p := BalanceSeries(data)[0];
      assert p in BalanceSeries(data);
      var i :| 0 <= i < |data| && data[i] == p;
    }
  }

  /** The balance line keeps the order of the rows, so over sorted data it runs by year. */
  lemma BalanceSeriesOrder(a: seq<BalancePoint>, b: seq<BalancePoint>)
    ensures BalanceSeries(a + b) == BalanceSeries(a) + BalanceSeries(b)
    ensures SortedBy(a, Year) ==> SortedBy(BalanceSeries(a), Year)
  {
    FilterAppend(a, b, DefinedPerCap);
    if SortedBy(a, Year) {
      FilterSortedBy(a, DefinedPerCap, Year);
    }
  }

  // ---------------------------------------------------------------------------
  // the fetch effect
  // ---------------------------------------------------------------------------

  datatype EcoState = EcoState(data: seq<BalancePoint>, loading: bool, error: Option<string>)

  const NoDataMessage := "No ecological balance data available for this country"
  const PipelineMessage := "Ecological balance data not available. Please run the pipeline to generate features."
  const FailureMessage := "Failed to load ecological balance data"

  /** The state after the effect for `country`, given the response of `/eco-balance/{country}`. */
  function FetchEcoBalance(st: EcoState, country: Option<string>, response: Response<seq<BalancePoint>>): (r: EcoState)
    ensures !Truthy(country) ==> r == st.(data := [])
    ensures Truthy(country) ==> !r.loading
    ensures Truthy(country) && response.Ok? && response.data.Some? && |response.data.value| > 0 ==>
      && r.error.None?
      && SortedBy(r.data, Year)
      && multiset(r.data) == multiset(response.data.value)
    ensures Truthy(country) && response.Ok? && (response.data.None? || |response.data.value| == 0) ==>
      r.data == st.data && r.error == Some(NoDataMessage)
    ensures Truthy(country) && response.Failed? ==>
      && r.data == st.data
      && r.error == Some(if response.status == Some(404) then PipelineMessage else FailureMessage)
  {
    if !Truthy(country) then st.(data := [])
    else
      match response
      case Ok(body) =>
        if body.Some? && |body.value| > 0 then EcoState(SortByYear(body.value), false, None)
        else EcoState(st.data, false, Some(NoDataMessage))
      case Failed(status) =>
        EcoState(st.data, false, Some(if status == Some(404) then PipelineMessage else FailureMessage))
  }

  /** After a successful fetch the latest row is a row of the response with the greatest year. */
  lemma LatestIsNewest(st: EcoState, country: Option<string>, rows: seq<BalancePoint>)
    requires Truthy(country) && |rows| > 0
    ensures var latest := LatestData(FetchEcoBalance(st, country, Ok(Some(rows))).data);
      && latest.Some?
      && latest.value in rows
      && forall p :: p in rows ==> p.year <= latest.value.year
  {
    var data := FetchEcoBalance(st, country, Ok(Some(rows))).data;
    assert |data| == |rows| by {
      assert |multiset(data)| == |multiset(rows)|;
    }
    var latest := data[|data| - 1];
    assert latest in multiset(rows);
    forall p | p in rows
      ensures p.year <= latest.year
    {
      assert p in multiset(data);
      var i :| 0 <= i < |data| && data[i] == p;
      assert Year(data[i]) <= Year(data[|data| - 1]);
    }
  }

  /** Rows of the same year keep their response order after the sort. */
  lemma SortKeepsYearOrder(rows: seq<BalancePoint>, year: int)
    ensures Filter(SortByYear(rows), (p: BalancePoint) => p.year == year) == Filter(rows, (p: BalancePoint) => p.year == year)
  {
    SortByStable(rows, Year, (p: BalancePoint) => p.year == year, year);
  }
}
