/** The data handling of the insight comparison view: the question-title map, the naive CSV
    parser, the first-occurrence de-duplication by `iso3`, the selected-country filter, the
    narrative parser and lookup, and the state updates of the view. */
module InsightComparison {
  import opened Wrappers
  import opened Http
  import opened Sequences
  import opened Strings

  // ---------------------------------------------------------------------------
  // question titles
  // ---------------------------------------------------------------------------

  const QuestionTitles: map<string, string> := map[
    "resource_curse" := "Resource Curse",
    "renewables_paradox" := "Renewables \U{2260} Decarbonisation",
    "protected_area_reality" := "Protected-Area Reality Test",
    "land_pressure" := "Land-Pressure Hotspots",
    "eu_energy_shock" := "EU Energy Shock"
  ]

  /** `questionMap[slug] || slug`: the display title of a known slug, otherwise the slug. */
  function QuestionTitle(slug: string): (r: string)
    ensures slug in QuestionTitles ==> r == QuestionTitles[slug]
    ensures slug !in QuestionTitles ==> r == slug
  {
    if slug in QuestionTitles && QuestionTitles[slug] != "" then QuestionTitles[slug] else slug
  }

  /** The header shows the slug itself exactly when the slug is not one of the five known ones. */
  lemma QuestionTitleFallback(slug: string)
    ensures QuestionTitle(slug) == slug <==> slug !in QuestionTitles
  {
    if slug in QuestionTitles {
      assert QuestionTitles[slug] != slug;
    }
  }

  // ---------------------------------------------------------------------------
  // records and the CSV parser
  // ---------------------------------------------------------------------------

  /** A record field: `undefined` (no value at that position), a number, a string, or the
      `isSelected` flag added by the filter. */
  datatype Field = Undefined | Num(n: real) | Text(s: string) | Flag(b: bool)

  type Record = map<string, Field>

  /** `isNaN(Number(value)) ? value : Number(value)`, where `num` is the `Number` coercion
      (`None` for NaN). `Number(undefined)` is NaN, so an absent value stays undefined. */
  function Convert(value: Option<string>, num: string -> Option<real>): Field {
    match value
    case None => Undefined
    case Some(v) => if num(v).Some? then Num(num(v).value) else Text(v)
  }

  /** The converted `values[index]`. */
  function FieldAt(values: seq<string>, index: nat, num: string -> Option<real>): Field {
    Convert(if index < |values| then Some(values[index]) else None, num)
  }

  /** `headers.forEach((header, index) => entry[header] = ...)`, a left fold over the headers. */
  function Entry(headers: seq<string>, values: seq<string>, num: string -> Option<real>): Record
    decreases |headers|
  {
    if |headers| == 0 then map[]
    else
      var last := |headers| - 1;
      Entry(headers[..last], values, num)[headers[last] := FieldAt(values, last, num)]
  }

  /** The record's keys are exactly the header fields. */
  lemma {:induction false} EntryKeys(headers: seq<string>, values: seq<string>, num: string -> Option<real>, h: string)
    ensures h in Entry(headers, values, num) <==> h in headers
    decreases |headers|
  {
    if |headers| > 0 {
      var last := |headers| - 1;
      EntryKeys(headers[..last], values, num, h);
      assert headers == headers[..last] + [headers[last]];
    }
  }

  /** A header takes the converted value at its column; a repeated header takes the value at
      its last position. */
  lemma {:induction false} EntryValue(headers: seq<string>, values: seq<string>, num: string -> Option<real>, k: nat)
    requires k < |headers|
    requires forall m :: k < m < |headers| ==> headers[m] != headers[k]
    ensures headers[k] in Entry(headers, values, num)
    ensures Entry(headers, values, num)[headers[k]] == FieldAt(values, k, num)
    decreases |headers|
  {
    var last := |headers| - 1;
    if k < last {
      var init := headers[..last];
      assert init[k] == headers[k];
      assert forall m :: k < m < |init| ==> init[m] == headers[m];
      EntryValue(init, values, num, k);
    }
  }

  /** The lines after the header whose `trim()` is non-empty, in order. */
  function DataLines(text: string): (r: seq<string>)
    ensures forall l :: l in r <==> l in Split(text, '\n')[1..] && NotBlank(l)
  {
    var lines := Split(text, '\n');
    assert forall l :: l in Filter(lines[1..], NotBlank) <==> l in lines[1..] && NotBlank(l) by {
      forall l
        ensures l in Filter(lines[1..], NotBlank) <==> l in lines[1..] && NotBlank(l)
      {
        FilterMembership(lines[1..], NotBlank, l);
      }
    }
    Filter(lines[1..], NotBlank)
  }

  /** The header fields: the first line split on commas. */
  function Headers(text: string): seq<string> {
    Split(Split(text, '\n')[0], ',')
  }

  /** The records parsed from the CSV text: one per data line, in order, each from the header
      fields and that line's comma fields. */
  function ParseCsv(text: string, num: string -> Option<real>): (r: seq<Record>)
    ensures |r| == |DataLines(text)|
  {
    var lines := DataLines(text);
    seq(|lines|, i requires 0 <= i < |lines| => Entry(Headers(text), Split(lines[i], ','), num))
  }

  /** Each record has exactly the header fields as keys. The value of a header (at its last
      column) is the number `Number` reads there; failing that, the raw text; and undefined
      where the line is too short. */
  lemma ParseCsvRecord(text: string, num: string -> Option<real>, i: nat, k: nat)
    requires i < |ParseCsv(text, num)| && k < |Headers(text)|
    requires forall m :: k < m < |Headers(text)| ==> Headers(text)[m] != Headers(text)[k]
    ensures forall h :: h in ParseCsv(text, num)[i] <==> h in Headers(text)
    ensures var values := Split(DataLines(text)[i], ',');
      var f := ParseCsv(text, num)[i][Headers(text)[k]];
      && (f.Undefined? <==> k >= |values|)
      && (f.Num? <==> k < |values| && num(values[k]).Some?)
      && (f.Num? ==> f.n == num(values[k]).value)
      && (f.Text? ==> f.s == values[k])
      && !f.Flag?
  {
    var values := Split(DataLines(text)[i], ',');
    forall h
      ensures h in ParseCsv(text, num)[i] <==> h in Headers(text)
    {
      EntryKeys(Headers(text), values, num, h);
    }
    EntryValue(Headers(text), values, num, k);
  }

  // ---------------------------------------------------------------------------
  // de-duplication by iso3 (resource_curse only)
  // ---------------------------------------------------------------------------

  /** `item.iso3`. */
  function Iso3(r: Record): Field {
    if "iso3" in r then r["iso3"] else Undefined
  }

  /** The `reduce` of lines 194-200: walks the records, and pushes each one whose `iso3` no kept
      record has (`acc.some(...)` is the inner loop). */
  method DedupByIso3(rows: seq<Record>) returns (acc: seq<Record>)
    ensures acc == Dedup(rows, Iso3)
    ensures forall i, j :: 0 <= i < j < |acc| ==> Iso3(acc[i]) != Iso3(acc[j])
    ensures forall k :: KeyIn(acc, Iso3, k) <==> KeyIn(rows, Iso3, k)
  {
    acc := [];
    var i := 0;
    while i < |rows|
      invariant 0 <= i <= |rows|
      invariant acc == Dedup(rows[..i], Iso3)
    {
      var current := rows[i];
      var isDuplicate := false;
      var j := 0;
      while j < |acc| && !isDuplicate
        invariant 0 <= j <= |acc|
        invariant isDuplicate <==> exists m :: 0 <= m < j && Iso3(acc[m]) == Iso3(current)
      {
        if Iso3(acc[j]) == Iso3(current) {
          isDuplicate := true;
        }
        j := j + 1;
      }
      assert isDuplicate <==> KeyIn(acc, Iso3, Iso3(current));
      if !isDuplicate {
        acc := acc + [current];
      }
      assert rows[..i + 1][..i] == rows[..i];
      i := i + 1;
    }
    assert rows[..|rows|] == rows;
    DedupDistinct(rows, Iso3);
    forall k
      ensures KeyIn(acc, Iso3, k) <==> KeyIn(rows, Iso3, k)
    {
      DedupKeys(rows, Iso3, k);
    }
  }

  // ---------------------------------------------------------------------------
  // selected-country filter
  // ---------------------------------------------------------------------------

  /** `countries.includes(item.iso3)`: only a string code can match. */
  predicate Selected(item: Record, countries: seq<string>) {
    Iso3(item).Text? && Iso3(item).s in countries
  }

  /** `getFilteredData`: with global context every record, marked with `isSelected`; without
      it only the selected records. */
  function FilteredData(data: seq<Record>, countries: seq<string>, showGlobal: bool): (r: seq<Record>)
    ensures |data| == 0 ==> r == []
    ensures showGlobal ==> |r| == |data|
    ensures showGlobal ==> forall i :: 0 <= i < |r| ==>
      && r[i].Keys == data[i].Keys + {"isSelected"}
      && r[i]["isSelected"] == Flag(Selected(data[i], countries))
      && (forall k :: k in data[i] && k != "isSelected" ==> r[i][k] == data[i][k])
    ensures !showGlobal ==> forall x :: x in r <==> x in data && Selected(x, countries)
  {
    if |data| == 0 then []
    else if showGlobal then
      seq(|data|, i requires 0 <= i < |data| => data[i]["isSelected" := Flag(Selected(data[i], countries))])
    else
      var sel := (item: Record) => Selected(item, countries);
      assert forall x :: x in Filter(data, sel) <==> x in data && Selected(x, countries) by {
        forall x
          ensures x in Filter(data, sel) <==> x in data && Selected(x, countries)
        {
          FilterMembership(data, sel, x);
        }
      }
      Filter(data, sel)
  }

  /** Without global context the filter keeps the input order: it distributes over
      concatenation. */
  lemma FilteredDataOrder(a: seq<Record>, b: seq<Record>, countries: seq<string>)
    ensures FilteredData(a + b, countries, false) == FilteredData(a, countries, false) + FilteredData(b, countries, false)
  {
    var sel := (item: Record) => Selected(item, countries);
    FilterAppend(a, b, sel);
    if |a| == 0 {
      assert a + b == b;
    }
    if |b| == 0 {
      assert a + b == a;
    }
  }

  // ---------------------------------------------------------------------------
  // removing a country from the basket
  // ---------------------------------------------------------------------------

  /** `countries.filter(c => c !== country)`. */
  function Without(countries: seq<string>, country: string): (r: seq<string>)
    ensures country !in r
    ensures forall c :: c in r <==> c in countries && c != country
  {
    var keep := (c: string) => c != country;
    assert forall c :: c in Filter(countries, keep) <==> c in countries && c != country by {
      forall c
        ensures c in Filter(countries, keep) <==> c in countries && c != country
      {
        FilterMembership(countries, keep, c);
      }
    }
    Filter(countries, keep)
  }

  lemma {:induction false} FilterOutCount(s: seq<string>, keep: string -> bool, x: string)
    requires forall c :: keep(c) == (c != x)
    ensures |Filter(s, keep)| == |s| - multiset(s)[x]
    decreases |s|
  {
    if |s| > 0 {
      FilterOutCount(s[1..], keep, x);
      assert s == [s[0]] + s[1..];
    }
  }

  /** Exactly the copies of the removed code go. */
  lemma WithoutCount(countries: seq<string>, country: string)
    ensures |Without(countries, country)| == |countries| - multiset(countries)[country]
  {
    FilterOutCount(countries, (c: string) => c != country, country);
  }

  /** Removal keeps the order of the remaining codes. */
  lemma WithoutOrder(a: seq<string>, b: seq<string>, country: string)
    ensures Without(a + b, country) == Without(a, country) + Without(b, country)
  {
    FilterAppend(a, b, (c: string) => c != country);
  }

  /** The route `navigate` is last sent to. */
  datatype Route = Home | Compare(countries: string, question: string)

  /** When the codes are non-empty and comma-free, the `countries` URL parameter written on
      removal reads back, through the URL-parameter effect, as the remaining list. */
  lemma RemoveCountryRoundTrip(countries: seq<string>, country: string)
    requires forall i :: 0 <= i < |countries| ==> ',' !in countries[i] && countries[i] != ""
    requires |Without(countries, country)| > 0
    ensures Truthy(Some(Join(Without(countries, country), ',')))
    ensures Split(Join(Without(countries, country), ','), ',') == Without(countries, country)
  {
    var rest := Without(countries, country);
    assert forall i :: 0 <= i < |rest| ==> rest[i] in countries;
    SplitJoin(rest, ',');
    JoinNonEmpty(rest);
  }

  lemma JoinNonEmpty(parts: seq<string>)
    requires |parts| > 0 && parts[0] != ""
    ensures Join(parts, ',') != ""
  {
    if |parts| > 1 {
      assert |Join(parts, ',')| >= |parts[0]|;
    }
  }

  // ---------------------------------------------------------------------------
  // narratives
  // ---------------------------------------------------------------------------

  /** One narrative line: with at least three comma fields, the key `f0-f1` and the remaining
      fields re-joined by commas. */
  function NarrativeLine(line: string): (r: Option<(string, string)>)
    ensures r.Some? <==> |Split(line, ',')| >= 3
  {
    var values := Split(line, ',');
    if |values| >= 3 then Some((values[0] + "-" + values[1], Join(values[2..], ','))) else None
  }

  /** A line `a,b,text` with comma-free `a` and `b` gives the key `a-b` and the verbatim
      narrative `text`, commas included. */
  lemma NarrativeLineText(a: string, b: string, text: string)
    requires ',' !in a && ',' !in b
    ensures NarrativeLine(a + "," + b + "," + text) == Some((a + "-" + b, text))
  {
    var line := a + "," + b + "," + text;
    assert line == a + [','] + (b + [','] + text);
    SplitAtSeparator(a, b + [','] + text, ',');
    SplitAtSeparator(b, text, ',');
    var values := Split(line, ',');
    assert values == [a] + ([b] + Split(text, ','));
    assert values[2..] == Split(text, ',');
    JoinSplit(text, ',');
  }

  /** The `forEach` left fold: every line with an entry writes it, a later line with the same
      key overwriting an earlier one. */
  function NarrativeFold(lines: seq<string>): map<string, string>
    decreases |lines|
  {
    if |lines| == 0 then map[]
    else
      var m := NarrativeFold(lines[..|lines| - 1]);
      match NarrativeLine(lines[|lines| - 1])
      case None => m
      case Some(e) => m[e.0 := e.1]
  }

  /** Line `i` writes key `k`. */
  predicate Writes(lines: seq<string>, i: int, k: string)
    requires 0 <= i < |lines|
  {
    NarrativeLine(lines[i]).Some? && NarrativeLine(lines[i]).value.0 == k
  }

  /** A key is in the map exactly when some line writes it. */
  lemma {:induction false} NarrativeKeys(lines: seq<string>, k: string)
    ensures k in NarrativeFold(lines) <==> exists i :: 0 <= i < |lines| && Writes(lines, i, k)
    decreases |lines|
  {
    if |lines| > 0 {
      var init := lines[..|lines| - 1];
      NarrativeKeys(init, k);
      assert forall i :: 0 <= i < |init| ==> (Writes(init, i, k) <==> Writes(lines, i, k));
      if k in NarrativeFold(lines) && !Writes(lines, |lines| - 1, k) {
        var i :| 0 <= i < |init| && Writes(init, i, k);
        assert Writes(lines, i, k);
      }
    }
  }

  /** The value stored under a key is the narrative of the last line writing it. */
  lemma {:induction false} NarrativeLastWins(lines: seq<string>, i: nat, k: string)
    requires i < |lines| && Writes(lines, i, k)
    requires forall j :: i < j < |lines| ==> !Writes(lines, j, k)
    ensures k in NarrativeFold(lines) && NarrativeFold(lines)[k] == NarrativeLine(lines[i]).value.1
    decreases |lines|
  {
    var last := |lines| - 1;
    var init := lines[..last];
    if i < last {
      assert forall j :: i <= j < |init| ==> init[j] == lines[j];
      assert forall j :: i < j < |init| ==> (Writes(init, j, k) <==> Writes(lines, j, k));
      NarrativeLastWins(init, i, k);
      assert !Writes(lines, last, k);
    }
  }

  /** `narrativeMap` built from the CSV text. */
  function NarrativeMap(text: string): map<string, string> {
    NarrativeFold(DataLines(text))
  }

  /** The parse of lines 219-230: the `forEach` over the data lines, filling the map. */
  method ParseNarratives(text: string) returns (narrativeMap: map<string, string>)
    ensures narrativeMap == NarrativeMap(text)
    ensures forall k :: k in narrativeMap <==> exists i :: 0 <= i < |DataLines(text)| && Writes(DataLines(text), i, k)
  {
    var lines := DataLines(text);
    narrativeMap := map[];
    var i := 0;
    while i < |lines|
      invariant 0 <= i <= |lines|
      invariant narrativeMap == NarrativeFold(lines[..i])
    {
      var values := Split(lines[i], ',');
      if |values| >= 3 {
        var refIso := values[0];
        var cmpIso := values[1];
        var narrative := Join(values[2..], ',');
        narrativeMap := narrativeMap[refIso + "-" + cmpIso := narrative];
      }
      assert lines[..i + 1][..i] == lines[..i];
      i := i + 1;
    }
    assert lines[..|lines|] == lines;
    forall k
      ensures k in narrativeMap <==> exists i :: 0 <= i < |lines| && Writes(lines, i, k)
    {
      NarrativeKeys(lines, k);
    }
  }

  /** `narrativeData[key]` used as a condition: a stored non-empty narrative. */
  function Lookup(m: map<string, string>, key: string): (r: Option<string>)
    ensures r.Some? <==> key in m && m[key] != ""
    ensures r.Some? ==> r.value == m[key]
  {
    if key in m && m[key] != "" then Some(m[key]) else None
  }

  const EnergyVsPopulation := "energy_vs_population"

  /** The narrative `renderNarrative` shows: only for the energy-versus-population question
      with exactly two countries, the forward key `a-b` tried before the reverse key `b-a`. */
  function NarrativeFor(question: string, countries: seq<string>, m: map<string, string>): (r: Option<string>)
    ensures question != EnergyVsPopulation || |countries| != 2 ==> r.None?
    ensures question == EnergyVsPopulation && |countries| == 2 ==>
      var fwd := countries[0] + "-" + countries[1];
      var rev := countries[1] + "-" + countries[0];
      && (Lookup(m, fwd).Some? ==> r == Lookup(m, fwd))
      && (Lookup(m, fwd).None? ==> r == Lookup(m, rev))
  {
    if question != EnergyVsPopulation || |countries| != 2 then None
    else
      var fwd := Lookup(m, countries[0] + "-" + countries[1]);
      if fwd.Some? then fwd else Lookup(m, countries[1] + "-" + countries[0])
  }

  /** Swapping the two countries shows the same narrative unless both directions hold one. */
  lemma NarrativeSymmetric(m: map<string, string>, a: string, b: string)
    requires Lookup(m, a + "-" + b).None? || Lookup(m, b + "-" + a).None?
    ensures NarrativeFor(EnergyVsPopulation, [a, b], m) == NarrativeFor(EnergyVsPopulation, [b, a], m)
  {
  }

  // ---------------------------------------------------------------------------
  // the view's state
  // ---------------------------------------------------------------------------

  /** `setError` message when the insight CSV cannot be fetched. */
  function LoadError(question: string): string {
    "Failed to load data for " + question + ". Please check that the backend server is running."
  }

  /** The records stored for a question: de-duplicated for the resource-curse question only. */
  function InsightRows(question: string, parsed: seq<Record>): seq<Record> {
    if question == "resource_curse" then Dedup(parsed, Iso3) else parsed
  }

  /** The records after the insight fetch: those of a truthy body, else the previous ones. */
  function LoadedRows(question: string, response: Response<string>, num: string -> Option<real>,
                      previous: seq<Record>): seq<Record>
  {
    if response.Ok? && Truthy(response.data) then InsightRows(question, ParseCsv(response.data.value, num))
    else previous
  }

  /** The narratives after the narrative fetch: fetched for the energy-versus-population
      question only, and replaced only by a truthy body. */
  function LoadedNarratives(question: string, response: Response<string>, previous: map<string, string>): map<string, string> {
    if question == EnergyVsPopulation && response.Ok? && Truthy(response.data) then NarrativeMap(response.data.value)
    else previous
  }

  class ComparisonView {
    var countries: seq<string>
    var question: string
    var insightData: seq<Record>
    var narrativeData: map<string, string>
    var error: Option<string>
    var loading: bool
    var showGlobalContext: bool
    /** Where the view last navigated, if anywhere. */
    var navigatedTo: Option<Route>

    constructor ()
      ensures countries == [] && question == "" && insightData == [] && narrativeData == map[]
      ensures error.None? && loading && !showGlobalContext && navigatedTo.None?
    {
      countries := [];
      question := "";
      insightData := [];
      narrativeData := map[];
      error := None;
      loading := true;
      showGlobalContext := false;
      navigatedTo := None;
    }

    /** The URL-parameter effect: a non-empty `countries` parameter is split on commas, a
        non-empty `question` parameter is taken as is. */
    method ApplySearchParams(countriesParam: Option<string>, questionParam: Option<string>)
      modifies this
      ensures countries == (if Truthy(countriesParam) then Split(countriesParam.value, ',') else old(countries))
      ensures question == (if Truthy(questionParam) then questionParam.value else old(question))
      ensures insightData == old(insightData) && narrativeData == old(narrativeData)
      ensures error == old(error) && loading == old(loading)
      ensures showGlobalContext == old(showGlobalContext) && navigatedTo == old(navigatedTo)
    {
      if Truthy(countriesParam) {
        countries := Split(countriesParam.value, ',');
      }
      if Truthy(questionParam) {
        question := questionParam.value;
      }
    }

    /** `handleRemoveCountry`: the list without every copy of `country`; an empty list goes back
        to the globe and leaves the state alone, otherwise the URL and the state carry the rest. */
    method RemoveCountry(country: string)
      modifies this
      ensures var rest := Without(old(countries), country);
        if |rest| == 0 then navigatedTo == Some(Home) && countries == old(countries)
        else navigatedTo == Some(Compare(Join(rest, ','), question)) && countries == rest
      ensures question == old(question) && insightData == old(insightData)
      ensures narrativeData == old(narrativeData) && error == old(error) && loading == old(loading)
      ensures showGlobalContext == old(showGlobalContext)
    {
      var newCountries := Without(countries, country);
      if |newCountries| == 0 {
        navigatedTo := Some(Home);
      } else {
        navigatedTo := Some(Compare(Join(newCountries, ','), question));
        countries := newCountries;
      }
    }

    /** The fetch effect, given the two responses: nothing without a question or countries;
        otherwise the records are loaded, then for the energy-versus-population question the
        narratives, and loading ends. */
    method LoadInsightData(response: Response<string>, narrativeResponse: Response<string>,
                           num: string -> Option<real>)
      modifies this
      ensures old(question) == "" || |old(countries)| == 0 ==>
        && insightData == old(insightData) && narrativeData == old(narrativeData)
        && error == old(error) && loading == old(loading)
      ensures old(question) != "" && |old(countries)| > 0 ==>
        && !loading
        && insightData == LoadedRows(question, response, num, old(insightData))
        && error == (if response.Failed? then Some(LoadError(question)) else None)
        && narrativeData == LoadedNarratives(question, narrativeResponse, old(narrativeData))
      ensures countries == old(countries) && question == old(question)
      ensures showGlobalContext == old(showGlobalContext) && navigatedTo == old(navigatedTo)
    {
      if question == "" || |countries| == 0 {
        return;
      }
      loading := true;
      error := None;
      LoadRecords(response, num);
      if question == EnergyVsPopulation {
        LoadNarratives(narrativeResponse);
      }
      loading := false;
    }

    /** The inner `try` for the insight CSV: a truthy body is parsed (and de-duplicated for the
        resource-curse question), a failure sets the error. */
    method LoadRecords(response: Response<string>, num: string -> Option<real>)
      modifies this
      ensures insightData == LoadedRows(question, response, num, old(insightData))
      ensures error == (if response.Failed? then Some(LoadError(question)) else old(error))
      ensures countries == old(countries) && question == old(question) && narrativeData == old(narrativeData)
      ensures loading == old(loading) && showGlobalContext == old(showGlobalContext) && navigatedTo == old(navigatedTo)
    {
      match response {
        case Ok(data) =>
          if Truthy(data) {
            var parsed := ParseCsv(data.value, num);
            if question == "resource_curse" {
              insightData := DedupByIso3(parsed);
            } else {
              insightData := parsed;
            }
          }
        case Failed(_) =>
          error := Some(LoadError(question));
      }
    }

    /** The narrative `try`: a truthy body replaces the narratives; a failure is only logged. */
    method LoadNarratives(narrativeResponse: Response<string>)
      modifies this
      ensures narrativeData == LoadedNarratives(EnergyVsPopulation, narrativeResponse, old(narrativeData))
      ensures countries == old(countries) && question == old(question) && insightData == old(insightData)
      ensures error == old(error) && loading == old(loading)
      ensures showGlobalContext == old(showGlobalContext) && navigatedTo == old(navigatedTo)
    {
      if narrativeResponse.Ok? && Truthy(narrativeResponse.data) {
        narrativeData := ParseNarratives(narrativeResponse.data.value);
      }
    }

    /** `getFilteredData()` on the current state. */
    function Filtered(): seq<Record>
      reads this
    {
      FilteredData(insightData, countries, showGlobalContext)
    }

    /** `renderNarrative()`'s text on the current state. */
    function ShownNarrative(): Option<string>
      reads this
    {
      NarrativeFor(question, countries, narrativeData)
    }
  }
}
