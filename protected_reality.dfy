/** The protected-area reality scatter: the row-validity filter, the clamping and marking of
    the points, the two glyph series, the axis domains and the "protection not preventing
    forest loss" warning. */
module ProtectedReality {
  import opened Wrappers
  import opened Http
  import opened Sequences

  /** A JavaScript number as `isNaN` sees it (a non-numeric string coerces to NaN). */
  datatype JsNumber = Finite(v: real) | NaN

  /** One input row's fields read by the scatter; `None` is null or undefined. */
  datatype RawRow = RawRow(iso3: Option<string>, protectedPct: Option<real>, deltaForest: Option<JsNumber>)

  /** One plotted point. `deltaForest` includes the click-separation jitter. */
  datatype Point = Point(iso3: string, protectedPct: real, deltaForest: real, isSelected: bool)

  /** The filter of lines 43-51: a row, a truthy `iso3`, a `protected_pct`, and a
      `delta_forest` that is present and not NaN. */
  predicate IsValid(d: Option<RawRow>) {
    && d.Some?
    && Truthy(d.value.iso3)
    && d.value.protectedPct.Some?
    && d.value.deltaForest.Some? && d.value.deltaForest.value.Finite?
  }

  function ValidRows(data: seq<Option<RawRow>>): (r: seq<Option<RawRow>>)
    ensures forall d :: d in r <==> d in data && IsValid(d)
    ensures forall i :: 0 <= i < |r| ==> IsValid(r[i])
  {
    assert forall d :: d in Filter(data, IsValid) <==> d in data && IsValid(d) by {
      forall d
        ensures d in Filter(data, IsValid) <==> d in data && IsValid(d)
      {
        FilterMembership(data, IsValid, d);
      }
    }
    assert forall i :: 0 <= i < |Filter(data, IsValid)| ==> IsValid(Filter(data, IsValid)[i]) by {
      forall i | 0 <= i < |Filter(data, IsValid)|
        ensures IsValid(Filter(data, IsValid)[i])
      {
        assert Filter(data, IsValid)[i] in Filter(data, IsValid);
      }
    }
    Filter(data, IsValid)
  }

  function Max0(x: real): real {
    if 0.0 >= x then 0.0 else x
  }

  /** One point of the `map` of lines 54-61; `jitter` is the `Math.random() * 0.01 - 0.005`
      drawn for a zero `delta_forest`. */
  function ToPoint(d: RawRow, countries: seq<string>, jitter: real): (p: Point)
    requires d.iso3.Some? && d.protectedPct.Some? && d.deltaForest.Some? && d.deltaForest.value.Finite?
    ensures p.iso3 == d.iso3.value && p.protectedPct >= 0.0
    ensures p.protectedPct == d.protectedPct.value || (d.protectedPct.value < 0.0 && p.protectedPct == 0.0)
    ensures p.isSelected <==> d.iso3.value in countries
    ensures d.deltaForest.value.v != 0.0 ==> p.deltaForest == d.deltaForest.value.v
    ensures d.deltaForest.value.v == 0.0 ==> p.deltaForest == jitter
  {
    var delta := d.deltaForest.value.v;
    Point(d.iso3.value, Max0(d.protectedPct.value),
          if delta == 0.0 then delta + jitter else delta,
          d.iso3.value in countries)
  }

  /** `processedData`: the valid rows, in order, as points; `jitter(i)` is the random draw for
      the `i`th valid row. */
  function Process(data: seq<Option<RawRow>>, countries: seq<string>, jitter: nat -> real): (r: seq<Point>)
    ensures |r| == |ValidRows(data)|
    ensures forall i :: 0 <= i < |r| ==>
      var d := ValidRows(data)[i].value;
      && IsValid(ValidRows(data)[i])
      && r[i].iso3 == d.iso3.value
      && r[i].protectedPct >= 0.0
      && (r[i].protectedPct == d.protectedPct.value || (d.protectedPct.value < 0.0 && r[i].protectedPct == 0.0))
      && (r[i].isSelected <==> d.iso3.value in countries)
      && (d.deltaForest.value.v != 0.0 ==> r[i].deltaForest == d.deltaForest.value.v)
      && (d.deltaForest.value.v == 0.0 ==> r[i].deltaForest == jitter(i))
  {
    var valid := ValidRows(data);
    var r := seq(|valid|, i requires 0 <= i < |valid| => ToPoint(valid[i].value, countries, jitter(i)));
    assert forall i :: 0 <= i < |r| ==> r[i] == ToPoint(valid[i].value, countries, jitter(i));
    r
  }

  // ---------------------------------------------------------------------------
  // colour and series
  // ---------------------------------------------------------------------------

  const SelectedColor := "#3b82f6"
  const OtherColor := "rgba(148, 163, 184, 0.4)"

  /** `getColor`: blue exactly for the selected points. */
  function GetColor(p: Point): (r: string)
    ensures r == SelectedColor <==> p.isSelected
    ensures r == OtherColor <==> !p.isSelected
  {
    if p.isSelected then SelectedColor else OtherColor
  }

  predicate IsSelected(p: Point) {
    p.isSelected
  }

  predicate IsUnselected(p: Point) {
    !p.isSelected
  }

  /** The "selected-countries" series, always drawn. */
  function SelectedSeries(points: seq<Point>): seq<Point> {
    Filter(points, IsSelected)
  }

  /** The "all-countries" series: the unselected points, drawn only with global context. */
  function UnselectedSeries(points: seq<Point>, showGlobal: bool): seq<Point> {
    if showGlobal then Filter(points, IsUnselected) else []
  }

  /** The two series split the points: with global context every point is drawn exactly once,
      the selected ones in the selected series; without it exactly the selected points are
      drawn. */
  lemma SeriesPartition(points: seq<Point>, showGlobal: bool)
    ensures forall p :: p in SelectedSeries(points) <==> p in points && p.isSelected
    ensures forall p :: p in UnselectedSeries(points, showGlobal) <==> showGlobal && p in points && !p.isSelected
    ensures showGlobal ==>
      multiset(SelectedSeries(points)) + multiset(UnselectedSeries(points, showGlobal)) == multiset(points)
    ensures !showGlobal ==> UnselectedSeries(points, showGlobal) == []
  {
    FilterPartition(points, IsSelected, IsUnselected);
    forall p
      ensures p in SelectedSeries(points) <==> p in points && p.isSelected
      ensures p in Filter(points, IsUnselected) <==> p in points && !p.isSelected
    {
      FilterMembership(points, IsSelected, p);
      FilterMembership(points, IsUnselected, p);
    }
  }

  // ---------------------------------------------------------------------------
  // axis domains
  // ---------------------------------------------------------------------------

  function ProtectedValues(points: seq<Point>): (r: seq<real>)
    ensures |r| == |points| && forall i :: 0 <= i < |r| ==> r[i] == points[i].protectedPct
  {
    seq(|points|, i requires 0 <= i < |points| => points[i].protectedPct)
  }

  function DeltaValues(points: seq<Point>): (r: seq<real>)
    ensures |r| == |points| && forall i :: 0 <= i < |r| ==> r[i] == points[i].deltaForest
  {
    seq(|points|, i requires 0 <= i < |points| => points[i].deltaForest)
  }

  /** `value || fallback` for a `d3.max`/`d3.min` result: undefined and 0 are falsy. */
  function OrElse(value: Option<real>, fallback: real): real {
    if value.None? || value.value == 0.0 then fallback else value.value
  }

  /** `[0, (max protected_pct || 60) + 5]`. */
  function XDomain(points: seq<Point>): (r: (real, real))
    ensures r.0 == 0.0
    ensures r.1 == 65.0 || exists k :: 0 <= k < |points| && r.1 == points[k].protectedPct + 5.0
  {
    var m := MaxOf(ProtectedValues(points));
    assert m.Some? && m.value != 0.0 ==> exists k :: 0 <= k < |points| && m.value == points[k].protectedPct;
    (0.0, OrElse(m, 60.0) + 5.0)
  }

  /** `[(min delta_forest || -35) - 0.5, (max delta_forest || 1) + 0.5]`: never narrower than 1,
      and each end is its fallback or half a unit beyond some point's change. */
  function YDomain(points: seq<Point>): (r: (real, real))
    ensures r.0 + 1.0 <= r.1
    ensures r.0 == -35.5 || exists k :: 0 <= k < |points| && r.0 == points[k].deltaForest - 0.5
    ensures r.1 == 1.5 || exists k :: 0 <= k < |points| && r.1 == points[k].deltaForest + 0.5
  {
    var lo := MinOf(DeltaValues(points));
    var hi := MaxOf(DeltaValues(points));
    assert lo.Some? ==> hi.Some? && lo.value <= hi.value by {
      if lo.Some? {
        assert DeltaValues(points)[0] in DeltaValues(points);
      }
    }
    (OrElse(lo, -35.0) - 0.5, OrElse(hi, 1.0) + 0.5)
  }

  /** Each end of the y domain falls back (to -35.5 and 1.5) when there are no points or when
      the extreme change is 0, and otherwise lies half a unit beyond the extreme change. */
  lemma YDomainFallback(points: seq<Point>)
    ensures |points| == 0 ==> YDomain(points) == (-35.5, 1.5)
    ensures |points| > 0 ==> exists k :: (0 <= k < |points|
      && (forall i :: 0 <= i < |points| ==> points[k].deltaForest <= points[i].deltaForest)
      && YDomain(points).0 == (if points[k].deltaForest == 0.0 then -35.0 else points[k].deltaForest) - 0.5)
    ensures |points| > 0 ==> exists k :: (0 <= k < |points|
      && (forall i :: 0 <= i < |points| ==> points[i].deltaForest <= points[k].deltaForest)
      && YDomain(points).1 == (if points[k].deltaForest == 0.0 then 1.0 else points[k].deltaForest) + 0.5)
  {
    var vs := DeltaValues(points);
    if |points| > 0 {
      var lo := MinOf(vs).value;
      var hi := MaxOf(vs).value;
      var a :| 0 <= a < |vs| && vs[a] == lo;
      var b :| 0 <= b < |vs| && vs[b] == hi;
      forall i | 0 <= i < |points|
        ensures lo <= points[i].deltaForest <= hi
      {
        assert vs[i] in vs;
      }
      assert points[a].deltaForest == lo;
      assert points[b].deltaForest == hi;
    }
  }

  /** The x domain is `[0, 65]` when no point has a positive protected share (or there are no
      points), and otherwise ends 5 past the largest share. */
  lemma XDomainFallback(points: seq<Point>)
    requires forall i :: 0 <= i < |points| ==> points[i].protectedPct >= 0.0
    ensures (forall i :: 0 <= i < |points| ==> points[i].protectedPct == 0.0) ==> XDomain(points) == (0.0, 65.0)
    ensures (exists i :: 0 <= i < |points| && points[i].protectedPct != 0.0) ==>
      && (exists k :: 0 <= k < |points| && XDomain(points).1 == points[k].protectedPct + 5.0)
      && (forall i :: 0 <= i < |points| ==> points[i].protectedPct + 5.0 <= XDomain(points).1)
  {
    var vs := ProtectedValues(points);
    var m := MaxOf(vs);
    if m.Some? {
      var k :| 0 <= k < |vs| && vs[k] == m.value;
      forall i | 0 <= i < |points|
        ensures points[i].protectedPct <= m.value
      {
        assert vs[i] in vs;
      }
    }
  }

  /** Every processed point lies inside both domains, strictly inside the y domain. */
  lemma DomainsContainPoints(points: seq<Point>)
    requires forall i :: 0 <= i < |points| ==> points[i].protectedPct >= 0.0
    ensures forall i :: 0 <= i < |points| ==>
      XDomain(points).0 <= points[i].protectedPct < XDomain(points).1
    ensures forall i :: 0 <= i < |points| ==>
      YDomain(points).0 < points[i].deltaForest < YDomain(points).1
  {
    var xs := ProtectedValues(points);
    var ys := DeltaValues(points);
    forall i | 0 <= i < |points|
      ensures points[i].protectedPct < XDomain(points).1
      ensures YDomain(points).0 < points[i].deltaForest < YDomain(points).1
    {
      assert xs[i] in xs && ys[i] in ys;
    }
  }

  // ---------------------------------------------------------------------------
  // the warning
  // ---------------------------------------------------------------------------

  /** The tooltip's "paper park" warning: at least 15% protected and still losing forest. */
  predicate ProtectionWarning(p: Point) {
    p.protectedPct >= 15.0 && p.deltaForest < 0.0
  }

  /** Clamping never changes the 15% test, so for a row with a non-zero change the warning
      reads the row's own values; a row with no change warns only through a negative jitter. */
  lemma WarningOfProcessed(data: seq<Option<RawRow>>, countries: seq<string>, jitter: nat -> real, i: nat)
    requires i < |Process(data, countries, jitter)|
    ensures var d := ValidRows(data)[i].value;
      var p := Process(data, countries, jitter)[i];
      && (d.deltaForest.value.v != 0.0 ==>
           (ProtectionWarning(p) <==> d.protectedPct.value >= 15.0 && d.deltaForest.value.v < 0.0))
      && (d.deltaForest.value.v == 0.0 ==>
           (ProtectionWarning(p) <==> d.protectedPct.value >= 15.0 && jitter(i) < 0.0))
  {
  }
}
