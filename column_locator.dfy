/**
 * `buscar_columna_valor`: which column of a sheet holds the metric value.
 * First a column headed "Total", then the first column whose first data row
 * names the metric, then the second column.
 */
module ColumnLocator {
  import opened Wrappers
  import opened Text
  import opened Sheets

  /** The metric-name patterns per KPI (the `kpi_patterns` table). */
  function Patterns(kpi: string): Option<seq<string>>
  {
    if kpi == "TMO" then Some(["%tmo", "tmo"])
    else if kpi == "TransfEPA" then Some(["%transf", "transf epa", "transfepa", "transf."])
    else if kpi == "Tipificaciones" then Some(["%tipif", "tipif", "tipificaciones"])
    else if kpi == "SatEP" then Some(["%satisf", "satisf"])
    else if kpi == "ResEP" then Some(["%resol", "resol"])
    else if kpi == "SatSNL" then Some(["%satisf", "satisf"])
    else if kpi == "ResSNL" then Some(["%resol", "resol"])
    else None
  }

  /** A string header equal to "total" once lower-cased and stripped. */
  predicate IsTotalHeader(h: Cell)
  {
    h.Str? && Lower(Strip(h.s)) == "total"
  }

  /** Some pattern occurs in the lower-cased text of the cell. */
  predicate CellMatches(c: Cell, patterns: seq<string>)
  {
    exists p :: p in patterns && Contains(Lower(CellText(c)), p)
  }

  /** The first cell at or after `from` that satisfies `p`. */
  function FindFirst(cells: seq<Cell>, p: Cell -> bool, from: nat): (r: Option<nat>)
    decreases |cells| - from
    ensures r.Some? ==> from <= r.value < |cells| && p(cells[r.value])
    ensures r.Some? ==> forall j :: from <= j < r.value ==> !p(cells[j])
    ensures r.None? ==> forall j :: from <= j < |cells| ==> !p(cells[j])
  {
    if from >= |cells| then None
    else if p(cells[from]) then Some(from)
    else FindFirst(cells, p, from + 1)
  }

  /** The first "Total" header at or after `from`. */
  function FindTotal(header: seq<Cell>, from: nat): (r: Option<nat>)
    ensures r.Some? ==> from <= r.value < |header| && IsTotalHeader(header[r.value])
    ensures r.Some? ==> forall j :: from <= j < r.value ==> !IsTotalHeader(header[j])
    ensures r.None? ==> forall j :: from <= j < |header| ==> !IsTotalHeader(header[j])
  {
    FindFirst(header, IsTotalHeader, from)
  }

  /** The first column below `width`, at or after `from`, whose first-row cell matches. */
  function FindPattern(firstRow: seq<Cell>, width: nat, patterns: seq<string>, from: nat): (r: Option<nat>)
    decreases width - from
    ensures r.Some? ==> from <= r.value < width && CellMatches(CellAt(firstRow, r.value), patterns)
    ensures r.Some? ==> forall j :: from <= j < r.value ==> !CellMatches(CellAt(firstRow, j), patterns)
    ensures r.None? ==> forall j :: from <= j < width ==> !CellMatches(CellAt(firstRow, j), patterns)
  {
    if from >= width then None
    else if CellMatches(CellAt(firstRow, from), patterns) then Some(from)
    else FindPattern(firstRow, width, patterns, from + 1)
  }

  /** Stage two: the pattern search, skipped for an unknown KPI or a sheet without rows. */
  function ByPattern(sheet: Sheet, kpi: string): Option<nat>
  {
    if Patterns(kpi).Some? && |sheet.rows| > 0
    then FindPattern(sheet.rows[0], |sheet.header|, Patterns(kpi).value, 0)
    else None
  }

  /** `buscar_columna_valor(df, kpi_nombre)`, as a column index. */
  function LocateColumn(sheet: Sheet, kpi: string): (r: Option<nat>)
    ensures r.Some? ==> r.value < |sheet.header|
  {
    match FindTotal(sheet.header, 0)
    case Some(j) => Some(j)
    case None =>
      match ByPattern(sheet, kpi)
      case Some(j) => Some(j)
      case None => if |sheet.header| >= 2 then Some(1) else None
  }

  /** A "Total" header always wins, and the first one is taken. */
  lemma TotalWins(sheet: Sheet, kpi: string, j: nat)
    requires j < |sheet.header| && IsTotalHeader(sheet.header[j])
    requires forall k :: 0 <= k < j ==> !IsTotalHeader(sheet.header[k])
    ensures LocateColumn(sheet, kpi) == Some(j)
  {
    var t := FindTotal(sheet.header, 0);
    assert t.Some? && t.value == j;
  }

  /**
   * Without a "Total" header, the first column whose first data row holds
   * one of the KPI's patterns wins.
   */
  lemma PatternWins(sheet: Sheet, kpi: string, j: nat)
    requires forall k :: 0 <= k < |sheet.header| ==> !IsTotalHeader(sheet.header[k])
    requires Patterns(kpi).Some? && |sheet.rows| > 0 && j < |sheet.header|
    requires CellMatches(CellAt(sheet.rows[0], j), Patterns(kpi).value)
    requires forall k :: 0 <= k < j ==> !CellMatches(CellAt(sheet.rows[0], k), Patterns(kpi).value)
    ensures LocateColumn(sheet, kpi) == Some(j)
  {
    assert FindTotal(sheet.header, 0).None?;
    var p := FindPattern(sheet.rows[0], |sheet.header|, Patterns(kpi).value, 0);
    assert p.Some? && p.value == j;
  }

  /**
   * With neither a "Total" header nor a matching column (or with an unknown
   * KPI name, or no data row), the second column is chosen; with fewer than
   * two columns nothing is.
   */
  lemma FallbackToSecond(sheet: Sheet, kpi: string)
    requires forall k :: 0 <= k < |sheet.header| ==> !IsTotalHeader(sheet.header[k])
    requires Patterns(kpi).None? || |sheet.rows| == 0 ||
      forall k :: 0 <= k < |sheet.header| ==> !CellMatches(CellAt(sheet.rows[0], k), Patterns(kpi).value)
    ensures LocateColumn(sheet, kpi) == if |sheet.header| >= 2 then Some(1) else None
  {
  }

  /** No column is found exactly when there are fewer than two columns and nothing matched. */
  lemma NotFound(sheet: Sheet, kpi: string)
    ensures LocateColumn(sheet, kpi).None? <==>
      && |sheet.header| < 2
      && (forall k :: 0 <= k < |sheet.header| ==> !IsTotalHeader(sheet.header[k]))
      && (Patterns(kpi).None? || |sheet.rows| == 0 ||
          forall k :: 0 <= k < |sheet.header| ==> !CellMatches(CellAt(sheet.rows[0], k), Patterns(kpi).value))
  {
  }

  /** SatEP/SatSNL and ResEP/ResSNL share their patterns, so they locate the same column. */
  lemma SharedPatterns(sheet: Sheet)
    ensures LocateColumn(sheet, "SatEP") == LocateColumn(sheet, "SatSNL")
    ensures LocateColumn(sheet, "ResEP") == LocateColumn(sheet, "ResSNL")
  {
    assert Patterns("SatEP") == Patterns("SatSNL");
    assert Patterns("ResEP") == Patterns("ResSNL");
  }
}
