/** `add_eco_balance_features`: adds the per-capita and total ecological-balance columns to
    a feature panel when their two source columns are present, and reports the absent ones.
    The panel is a sequence of named columns of equal length; a cell is a number or missing
    (pandas NaN). */
module EcoBalance {
  import opened Wrappers

  type Cell = Option<real>

  datatype Column = Column(name: string, cells: seq<Cell>)

  type Table = seq<Column>

  const BiocapPerCap := "total_BiocapPerCap"
  const EFConsPerCap := "total_EFConsPerCap"
  const BiocapTotGHA := "total_BiocapTotGHA"
  const EFConsTotGHA := "total_EFConsTotGHA"
  const EcoBalancePerCap := "eco_balance_percap"
  const EcoBalanceTotal := "eco_balance_total"
  const DefaultInputFile := "data_work/features_full.csv"

  /** Number of rows; a panel without columns has none. */
  function RowCount(t: Table): nat {
    if |t| == 0 then 0 else |t[0].cells|
  }

  /** What `read_csv` hands over: distinct column names, every column as long as the others. */
  ghost predicate WellFormed(t: Table) {
    && (forall i, j :: 0 <= i < j < |t| ==> t[i].name != t[j].name)
    && (forall i :: 0 <= i < |t| ==> |t[i].cells| == RowCount(t))
  }

  /** Position of the column called `name`, if there is one. */
  function IndexOf(t: Table, name: string): (r: Option<nat>)
    ensures r.Some? ==> r.value < |t| && t[r.value].name == name
    ensures r.Some? ==> forall j :: 0 <= j < r.value ==> t[j].name != name
    ensures r.None? <==> forall j :: 0 <= j < |t| ==> t[j].name != name
    decreases |t|
  {
    if |t| == 0 then None
    else if t[0].name == name then Some(0)
    else
      match IndexOf(t[1..], name)
      case None => None
      case Some(k) => Some(k + 1)
  }

  /** `name in panel.columns`. */
  predicate HasColumn(t: Table, name: string) {
    IndexOf(t, name).Some?
  }

  /** `panel[name]`. */
  function CellsOf(t: Table, name: string): seq<Cell>
    requires HasColumn(t, name)
  {
    t[IndexOf(t, name).value].cells
  }

  /** `panel[name] = cells`: an existing column is overwritten where it stands, a new one is
      appended after the others. */
  function Assign(t: Table, name: string, cells: seq<Cell>): (r: Table)
    ensures HasColumn(t, name) ==> |r| == |t|
    ensures !HasColumn(t, name) ==> |r| == |t| + 1
    ensures forall i :: 0 <= i < |r| ==> r[i].name == (if i < |t| then t[i].name else name)
    ensures forall i :: 0 <= i < |t| && t[i].name != name ==> r[i] == t[i]
    ensures IndexOf(r, name).Some? && r[IndexOf(r, name).value].cells == cells
  {
    match IndexOf(t, name)
    case Some(i) =>
      SameNamesIndexOf(t, t[i := Column(name, cells)], name);
      t[i := Column(name, cells)]
    case None =>
      SameNamesIndexOf(t, t + [Column(name, cells)], name);
      t + [Column(name, cells)]
  }

  /** Two panels whose names agree position by position on the shorter one find a name of the
      shorter one at the same position. */
  lemma SameNamesIndexOf(a: Table, b: Table, name: string)
    requires |a| <= |b| && forall i :: 0 <= i < |a| ==> a[i].name == b[i].name
    ensures IndexOf(a, name).Some? ==> IndexOf(b, name) == IndexOf(a, name)
    ensures IndexOf(a, name).None? && |b| == |a| + 1 && b[|a|].name == name ==> IndexOf(b, name) == Some(|a|)
  {
    if IndexOf(a, name).Some? {
      var k := IndexOf(a, name).value;
      assert b[k].name == name;
    }
  }

  /** Pandas subtraction of two cells: NaN in, NaN out. */
  function Minus(a: Cell, b: Cell): Cell {
    if a.Some? && b.Some? then Some(a.value - b.value) else None
  }

  /** Row-wise `a - b` of two aligned columns. */
  function Difference(a: seq<Cell>, b: seq<Cell>): (r: seq<Cell>)
    requires |a| == |b|
    ensures |r| == |a|
  {
    seq(|a|, i requires 0 <= i < |a| => Minus(a[i], b[i]))
  }

  /** One feature step (lines 39-40 and 52-53): `target = minuend - subtrahend` when both
      source columns exist, otherwise the panel unchanged. */
  function DeriveColumn(t: Table, target: string, minuend: string, subtrahend: string): (r: Table)
    requires WellFormed(t)
    ensures WellFormed(r) && RowCount(r) == RowCount(t)
    ensures HasColumn(r, target) <==> HasColumn(t, target) || (HasColumn(t, minuend) && HasColumn(t, subtrahend))
  {
    if HasColumn(t, minuend) && HasColumn(t, subtrahend) then
      var cells := Difference(CellsOf(t, minuend), CellsOf(t, subtrahend));
      AssignSpec(t, target, cells);
      Assign(t, target, cells)
    else t
  }

  /** The panel `add_eco_balance_features` returns and writes. */
  function Derive(t: Table): (r: Table)
    requires WellFormed(t)
    ensures WellFormed(r) && RowCount(r) == RowCount(t)
  {
    var t1 := DeriveColumn(t, EcoBalancePerCap, BiocapPerCap, EFConsPerCap);
    DeriveColumn(t1, EcoBalanceTotal, BiocapTotGHA, EFConsTotGHA)
  }

  /** The warning's list: the absent members of the pair, first before second. */
  function MissingColumns(t: Table, first: string, second: string): (r: seq<string>)
    ensures forall x :: x in r <==> (x == first || x == second) && !HasColumn(t, x)
    ensures |r| == 0 <==> HasColumn(t, first) && HasColumn(t, second)
    ensures |r| == (if HasColumn(t, first) then 0 else 1) + (if HasColumn(t, second) then 0 else 1)
    ensures !HasColumn(t, first) ==> r[0] == first
    ensures !HasColumn(t, second) ==> r[|r| - 1] == second
  {
    (if HasColumn(t, first) then [] else [first]) + (if HasColumn(t, second) then [] else [second])
  }

  // ---------------------------------------------------------------------------
  // lemmas about column assignment
  // ---------------------------------------------------------------------------

  lemma HasColumnAt(t: Table, i: nat)
    requires i < |t|
    ensures HasColumn(t, t[i].name)
  {
  }

  lemma AssignHas(t: Table, name: string, cells: seq<Cell>, other: string)
    ensures HasColumn(Assign(t, name, cells), other) <==> HasColumn(t, other) || other == name
  {
    var r := Assign(t, name, cells);
    if HasColumn(r, other) {
      var i := IndexOf(r, other).value;
      if i < |t| && other != name {
        assert r[i] == t[i];
        HasColumnAt(t, i);
      }
    }
    if HasColumn(t, other) {
      var i := IndexOf(t, other).value;
      HasColumnAt(r, i);
    }
    if other == name && !HasColumn(t, name) {
      HasColumnAt(r, |t|);
    }
  }

  /** Assigning a column of the right length keeps the panel well formed; reading back gives
      what was assigned, and every other column reads as before. */
  lemma {:induction false} AssignSpec(t: Table, name: string, cells: seq<Cell>)
    requires WellFormed(t) && (|t| == 0 || |cells| == RowCount(t))
    ensures WellFormed(Assign(t, name, cells))
    ensures RowCount(Assign(t, name, cells)) == |cells|
    ensures HasColumn(Assign(t, name, cells), name) && CellsOf(Assign(t, name, cells), name) == cells
    ensures forall m :: m != name && HasColumn(t, m) ==>
      HasColumn(Assign(t, name, cells), m) && CellsOf(Assign(t, name, cells), m) == CellsOf(t, m)
  {
    var r := Assign(t, name, cells);
    if |t| > 0 {
      assert r[0].name == t[0].name;
    }
    AssignHas(t, name, cells, name);
    var k := IndexOf(r, name).value;
    if k < |t| {
      assert r[k] == Column(name, cells);
    }
    forall m | m != name && HasColumn(t, m)
      ensures HasColumn(r, m) && CellsOf(r, m) == CellsOf(t, m)
    {
      AssignHas(t, name, cells, m);
      var i := IndexOf(t, m).value;
      var j := IndexOf(r, m).value;
      assert r[i] == t[i];
      if j < |t| {
        assert r[j] == t[j];
        assert i == j;
      }
    }
  }

  /** Assigning a column the contents it already has changes nothing. */
  lemma AssignSame(t: Table, name: string, cells: seq<Cell>)
    requires HasColumn(t, name) && CellsOf(t, name) == cells
    ensures Assign(t, name, cells) == t
  {
    var k := IndexOf(t, name).value;
    assert t[k] == Column(name, cells);
  }

  /** A feature step leaves every other column where it was and as it was, and appends at most
      the target. */
  lemma DeriveColumnFrame(t: Table, target: string, minuend: string, subtrahend: string)
    requires WellFormed(t)
    ensures |t| <= |DeriveColumn(t, target, minuend, subtrahend)| <= |t| + 1
    ensures forall i :: 0 <= i < |t| ==> DeriveColumn(t, target, minuend, subtrahend)[i].name == t[i].name
    ensures forall i :: 0 <= i < |t| && t[i].name != target ==> DeriveColumn(t, target, minuend, subtrahend)[i] == t[i]
    ensures |DeriveColumn(t, target, minuend, subtrahend)| == |t| + 1 ==>
      DeriveColumn(t, target, minuend, subtrahend)[|t|].name == target
    ensures forall m :: m != target ==>
      (HasColumn(DeriveColumn(t, target, minuend, subtrahend), m) <==> HasColumn(t, m))
    ensures forall m :: m != target && HasColumn(t, m) ==>
      CellsOf(DeriveColumn(t, target, minuend, subtrahend), m) == CellsOf(t, m)
  {
    if HasColumn(t, minuend) && HasColumn(t, subtrahend) {
      var cells := Difference(CellsOf(t, minuend), CellsOf(t, subtrahend));
      AssignSpec(t, target, cells);
      forall m | m != target
        ensures HasColumn(Assign(t, target, cells), m) <==> HasColumn(t, m)
      {
        AssignHas(t, target, cells, m);
      }
    }
  }

  // ---------------------------------------------------------------------------
  // properties of add_eco_balance_features
  // ---------------------------------------------------------------------------

  /** Each derived column is in the result exactly when its two sources are columns of the
      input, or when the input already carried it. */
  lemma DerivePresence(t: Table)
    requires WellFormed(t)
    ensures HasColumn(Derive(t), EcoBalancePerCap) <==>
      (HasColumn(t, BiocapPerCap) && HasColumn(t, EFConsPerCap)) || HasColumn(t, EcoBalancePerCap)
    ensures HasColumn(Derive(t), EcoBalanceTotal) <==>
      (HasColumn(t, BiocapTotGHA) && HasColumn(t, EFConsTotGHA)) || HasColumn(t, EcoBalanceTotal)
  {
    var t1 := DeriveColumn(t, EcoBalancePerCap, BiocapPerCap, EFConsPerCap);
    DeriveColumnFrame(t, EcoBalancePerCap, BiocapPerCap, EFConsPerCap);
    DeriveColumnFrame(t1, EcoBalanceTotal, BiocapTotGHA, EFConsTotGHA);
  }

  /** Stated row by row: the derived cell is present exactly when both operands are, and is then
      their difference. */
  predicate IsRowDifference(r: seq<Cell>, a: seq<Cell>, b: seq<Cell>) {
    && |r| == |a| == |b|
    && (forall i :: 0 <= i < |r| ==> (r[i].Some? <==> a[i].Some? && b[i].Some?))
    && (forall i :: 0 <= i < |r| && r[i].Some? ==> r[i].value == a[i].value - b[i].value)
  }

  /** A feature step whose sources exist leaves the target holding their row-wise difference. */
  lemma DeriveColumnValues(t: Table, target: string, minuend: string, subtrahend: string)
    requires WellFormed(t) && HasColumn(t, minuend) && HasColumn(t, subtrahend)
    ensures HasColumn(DeriveColumn(t, target, minuend, subtrahend), target)
    ensures IsRowDifference(CellsOf(DeriveColumn(t, target, minuend, subtrahend), target),
      CellsOf(t, minuend), CellsOf(t, subtrahend))
  {
    AssignSpec(t, target, Difference(CellsOf(t, minuend), CellsOf(t, subtrahend)));
  }

  /** When its sources exist, `eco_balance_percap` holds their row-wise difference. */
  lemma DerivePerCapValues(t: Table)
    requires WellFormed(t) && HasColumn(t, BiocapPerCap) && HasColumn(t, EFConsPerCap)
    ensures HasColumn(Derive(t), EcoBalancePerCap)
    ensures IsRowDifference(CellsOf(Derive(t), EcoBalancePerCap), CellsOf(t, BiocapPerCap), CellsOf(t, EFConsPerCap))
  {
    var t1 := DeriveColumn(t, EcoBalancePerCap, BiocapPerCap, EFConsPerCap);
    DeriveColumnValues(t, EcoBalancePerCap, BiocapPerCap, EFConsPerCap);
    DeriveColumnFrame(t1, EcoBalanceTotal, BiocapTotGHA, EFConsTotGHA);
  }

  /** When its sources exist, `eco_balance_total` holds their row-wise difference. */
  lemma DeriveTotalValues(t: Table)
    requires WellFormed(t) && HasColumn(t, BiocapTotGHA) && HasColumn(t, EFConsTotGHA)
    ensures HasColumn(Derive(t), EcoBalanceTotal)
    ensures IsRowDifference(CellsOf(Derive(t), EcoBalanceTotal), CellsOf(t, BiocapTotGHA), CellsOf(t, EFConsTotGHA))
  {
    var t1 := DeriveColumn(t, EcoBalancePerCap, BiocapPerCap, EFConsPerCap);
    DeriveColumnFrame(t, EcoBalancePerCap, BiocapPerCap, EFConsPerCap);
    DeriveColumnValues(t1, EcoBalanceTotal, BiocapTotGHA, EFConsTotGHA);
  }

  /** Rows are kept, no column is removed or moved, every column other than the two derived
      ones is unchanged, and whatever is appended is a derived column. */
  lemma DerivePreserves(t: Table)
    requires WellFormed(t)
    ensures RowCount(Derive(t)) == RowCount(t)
    ensures |t| <= |Derive(t)| <= |t| + 2
    ensures forall i :: 0 <= i < |t| ==> Derive(t)[i].name == t[i].name
    ensures forall i :: 0 <= i < |t| && t[i].name != EcoBalancePerCap && t[i].name != EcoBalanceTotal ==>
      Derive(t)[i] == t[i]
    ensures forall i :: |t| <= i < |Derive(t)| ==>
      Derive(t)[i].name == EcoBalancePerCap || Derive(t)[i].name == EcoBalanceTotal
  {
    var t1 := DeriveColumn(t, EcoBalancePerCap, BiocapPerCap, EFConsPerCap);
    DeriveColumnFrame(t, EcoBalancePerCap, BiocapPerCap, EFConsPerCap);
    DeriveColumnFrame(t1, EcoBalanceTotal, BiocapTotGHA, EFConsTotGHA);
  }

  /** A feature step run on its own output changes nothing. */
  lemma DeriveColumnIdempotent(t: Table, target: string, minuend: string, subtrahend: string)
    requires WellFormed(t) && target != minuend && target != subtrahend
    ensures DeriveColumn(DeriveColumn(t, target, minuend, subtrahend), target, minuend, subtrahend)
      == DeriveColumn(t, target, minuend, subtrahend)
  {
    var d := DeriveColumn(t, target, minuend, subtrahend);
    DeriveColumnFrame(t, target, minuend, subtrahend);
    if HasColumn(t, minuend) && HasColumn(t, subtrahend) {
      var cells := Difference(CellsOf(t, minuend), CellsOf(t, subtrahend));
      AssignSpec(t, target, cells);
      AssignSame(d, target, cells);
    }
  }

  /** Re-running the script on the file it wrote gives the same panel. */
  lemma DeriveIdempotent(t: Table)
    requires WellFormed(t)
    ensures Derive(Derive(t)) == Derive(t)
  {
    var t1 := DeriveColumn(t, EcoBalancePerCap, BiocapPerCap, EFConsPerCap);
    var d := Derive(t);
    DeriveColumnFrame(t, EcoBalancePerCap, BiocapPerCap, EFConsPerCap);
    DeriveColumnFrame(t1, EcoBalanceTotal, BiocapTotGHA, EFConsTotGHA);
    // the per-capita step on d finds the per-capita column already holding its value
    var d1 := DeriveColumn(d, EcoBalancePerCap, BiocapPerCap, EFConsPerCap);
    DeriveColumnFrame(d, EcoBalancePerCap, BiocapPerCap, EFConsPerCap);
    if HasColumn(t, BiocapPerCap) && HasColumn(t, EFConsPerCap) {
      var cells := Difference(CellsOf(t, BiocapPerCap), CellsOf(t, EFConsPerCap));
      AssignSpec(t, EcoBalancePerCap, cells);
      assert CellsOf(d, EcoBalancePerCap) == cells;
      AssignSame(d, EcoBalancePerCap, cells);
    }
    assert d1 == d;
    DeriveColumnIdempotent(t1, EcoBalanceTotal, BiocapTotGHA, EFConsTotGHA);
  }

  // ---------------------------------------------------------------------------
  // the mutable panel and the script
  // ---------------------------------------------------------------------------

  /** The pandas DataFrame, updated in place by column assignment. */
  class Panel {
    var columns: Table

    ghost predicate Valid()
      reads this
    {
      WellFormed(columns)
    }

    /** `pd.read_csv(input_file)`: the file's contents become the panel. */
    constructor (loaded: Table)
      requires WellFormed(loaded)
      ensures columns == loaded && Valid()
    {
      columns := loaded;
    }

    /** `name in panel.columns`. */
    predicate Has(name: string)
      reads this
    {
      HasColumn(columns, name)
    }

    /** `panel[name]`. */
    function Get(name: string): seq<Cell>
      reads this
      requires Has(name)
    {
      CellsOf(columns, name)
    }

    /** `panel[name] = cells`: scans the columns for `name`, overwrites it where found and
        appends it otherwise. */
    method SetColumn(name: string, cells: seq<Cell>)
      requires Valid() && (|columns| == 0 || |cells| == RowCount(columns))
      modifies this
      ensures columns == Assign(old(columns), name, cells)
      ensures Valid() && Has(name) && Get(name) == cells
      ensures forall m :: m != name && old(Has(m)) ==> Has(m) && Get(m) == old(Get(m))
    {
      AssignSpec(columns, name, cells);
      var i := 0;
      while i < |columns| && columns[i].name != name
        invariant 0 <= i <= |columns|
        invariant forall j :: 0 <= j < i ==> columns[j].name != name
      {
        i := i + 1;
      }
      if i < |columns| {
        columns := columns[i := Column(name, cells)];
      } else {
        columns := columns + [Column(name, cells)];
      }
    }
  }

  /** One `if ... in panel.columns` block of the script: assigns `target` when both sources are
      columns, otherwise collects the absent ones in order. */
  method DeriveStep(panel: Panel, target: string, minuend: string, subtrahend: string)
    returns (missing: seq<string>)
    requires panel.Valid()
    modifies panel
    ensures panel.Valid()
    ensures panel.columns == DeriveColumn(old(panel.columns), target, minuend, subtrahend)
    ensures missing == MissingColumns(old(panel.columns), minuend, subtrahend)
  {
    missing := [];
    if panel.Has(minuend) && panel.Has(subtrahend) {
      panel.SetColumn(target, Difference(panel.Get(minuend), panel.Get(subtrahend)));
    } else {
      if !panel.Has(minuend) {
        missing := missing + [minuend];
      }
      if !panel.Has(subtrahend) {
        missing := missing + [subtrahend];
      }
    }
  }

  /** `add_eco_balance_features(input_file, output_file)` run on the panel `loaded` read from
      `input_file`. Returns the updated panel, the path written to, the table written there and
      the two warning lists (empty when the column was derived). */
  method AddEcoBalanceFeatures(inputFile: Option<string>, outputFile: Option<string>, loaded: Table)
    returns (panel: Panel, inPath: string, outPath: string, written: Table,
             missingPerCap: seq<string>, missingTotal: seq<string>)
    requires WellFormed(loaded)
    ensures fresh(panel) && panel.Valid()
    ensures inputFile.None? ==> inPath == DefaultInputFile
    ensures inputFile.Some? ==> inPath == inputFile.value
    ensures outputFile.None? ==> outPath == inPath
    ensures outputFile.Some? ==> outPath == outputFile.value
    ensures panel.columns == Derive(loaded) && written == panel.columns
    ensures missingPerCap == MissingColumns(loaded, BiocapPerCap, EFConsPerCap)
    ensures missingTotal == MissingColumns(loaded, BiocapTotGHA, EFConsTotGHA)
  {
    inPath := if inputFile.None? then DefaultInputFile else inputFile.value;
    outPath := if outputFile.None? then inPath else outputFile.value;
    panel := new Panel(loaded);
    missingPerCap := DeriveStep(panel, EcoBalancePerCap, BiocapPerCap, EFConsPerCap);
    DeriveColumnFrame(loaded, EcoBalancePerCap, BiocapPerCap, EFConsPerCap);
    missingTotal := DeriveStep(panel, EcoBalanceTotal, BiocapTotGHA, EFConsTotGHA);
    written := panel.columns;
  }
}
