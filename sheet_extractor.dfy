/**
 * `procesar_archivo_kpi`: one uploaded sheet becomes a map from executive
 * name to a percentage (0-100, two decimals) or to nothing.
 */
module SheetExtractor {
  import opened Wrappers
  import opened Text
  import opened Numbers
  import opened Sheets
  import opened Normalizer
  import opened ColumnLocator

  /** Executive name to percentage, or `None` where the value did not normalise. */
  type Extract = map<string, Option<real>>

  /**
   * A row that is not an executive: no name, an empty name, the export's
   * "Filtros aplicados" line, or the "Total" summary line.
   */
  predicate IsSkipped(name: Cell)
  {
    || name.Empty?
    || name == Str("")
    || (name.Str? && (Contains(name.s, "Filtros aplicados") || Strip(name.s) == "Total"))
  }

  /** `round(normalizar_valor(valor) * 100, 2)`, or `None` when normalisation fails. */
  function Percent(c: Cell): Option<real>
  {
    match Normalize(c)
    case None => None
    case Some(f) => Some(Round(f * 100.0, 2))
  }

  /** The map the row loop builds over `rows`, reading values from column `col`. */
  function Collect(rows: seq<seq<Cell>>, col: nat): Extract
  {
    if rows == [] then map[]
    else
      var m := Collect(rows[..|rows| - 1], col);
      var row := rows[|rows| - 1];
      var name := CellAt(row, 0);
      if IsSkipped(name) then m else m[CellText(name) := Percent(CellAt(row, col))]
  }

  /** The value column, when the file is readable and not empty and the column label is truthy. */
  function ValueColumn(u: Upload, kpi: string): Option<nat>
  {
    if u.Unreadable? || IsEmptySheet(u.sheet) then None
    else match LocateColumn(u.sheet, kpi)
      case None => None
      case Some(col) => if IsFalsy(u.sheet.header[col]) then None else Some(col)
  }

  /** What `procesar_archivo_kpi(archivo, kpi)` returns. */
  function Extracted(u: Upload, kpi: string): Extract
  {
    match ValueColumn(u, kpi)
    case None => map[]
    case Some(col) => Collect(u.sheet.rows[1..], col)
  }

  /** A row that feeds the map: its name cell is not skipped, and it gives key `k`. */
  predicate Feeds(row: seq<Cell>, k: string)
  {
    !IsSkipped(CellAt(row, 0)) && CellText(CellAt(row, 0)) == k
  }

  /** The keys are exactly the names of the rows that are not skipped. */
  lemma {:induction false} CollectKeys(rows: seq<seq<Cell>>, col: nat, k: string)
    ensures k in Collect(rows, col) <==> exists i :: 0 <= i < |rows| && Feeds(rows[i], k)
  {
    if rows != [] {
      var init := rows[..|rows| - 1];
      CollectKeys(init, col, k);
      if exists i :: 0 <= i < |rows| && Feeds(rows[i], k) {
        var i :| 0 <= i < |rows| && Feeds(rows[i], k);
        if i < |init| {
          assert init[i] == rows[i];
        }
      }
      if exists i :: 0 <= i < |init| && Feeds(init[i], k) {
        var i :| 0 <= i < |init| && Feeds(init[i], k);
        assert rows[i] == init[i];
      }
    }
  }

  /** A name holds the value of the LAST row that feeds it: a later duplicate overwrites. */
  lemma {:induction false} CollectLastWins(rows: seq<seq<Cell>>, col: nat, k: string, i: nat)
    requires i < |rows| && Feeds(rows[i], k)
    requires forall j :: i < j < |rows| ==> !Feeds(rows[j], k)
    ensures k in Collect(rows, col) && Collect(rows, col)[k] == Percent(CellAt(rows[i], col))
  {
    if i < |rows| - 1 {
      var init := rows[..|rows| - 1];
      assert !Feeds(rows[|rows| - 1], k);
      assert init[i] == rows[i];
      forall j | i < j < |init|
        ensures !Feeds(init[j], k)
      {
        assert init[j] == rows[j];
      }
      CollectLastWins(init, col, k, i);
    }
  }

  /** Every stored percentage is non-negative. */
  lemma {:induction false} CollectNonNegative(rows: seq<seq<Cell>>, col: nat)
    ensures forall k :: k in Collect(rows, col) && Collect(rows, col)[k].Some? ==> Collect(rows, col)[k].value >= 0.0
  {
    if rows != [] {
      CollectNonNegative(rows[..|rows| - 1], col);
      var c := CellAt(rows[|rows| - 1], col);
      NormalizeNone(c);
      if Normalize(c).Some? {
        RoundNonNegative(Normalize(c).value * 100.0, 2);
      }
    }
  }

  /**
   * The first data row never feeds the map by itself, and nothing at all is
   * extracted from an unreadable or empty file or when no value column is
   * found.
   */
  lemma ExtractedShape(u: Upload, kpi: string, k: string)
    ensures ValueColumn(u, kpi).None? ==> Extracted(u, kpi) == map[]
    ensures k in Extracted(u, kpi) <==>
      ValueColumn(u, kpi).Some? && exists i :: 1 <= i < |u.sheet.rows| && Feeds(u.sheet.rows[i], k)
  {
    if ValueColumn(u, kpi).Some? {
      var rows := u.sheet.rows[1..];
      CollectKeys(rows, ValueColumn(u, kpi).value, k);
      if exists i :: 1 <= i < |u.sheet.rows| && Feeds(u.sheet.rows[i], k) {
        var i :| 1 <= i < |u.sheet.rows| && Feeds(u.sheet.rows[i], k);
        assert rows[i - 1] == u.sheet.rows[i];
      }
      if k in Extracted(u, kpi) {
        var i :| 0 <= i < |rows| && Feeds(rows[i], k);
        assert rows[i] == u.sheet.rows[i + 1];
      }
    }
  }

  /**
   * A name holds the percentage of the value cell of the last data row with
   * that name.
   */
  lemma ExtractedLastWins(u: Upload, kpi: string, k: string, i: nat)
    requires ValueColumn(u, kpi).Some?
    requires 1 <= i < |u.sheet.rows| && Feeds(u.sheet.rows[i], k)
    requires forall j :: i < j < |u.sheet.rows| ==> !Feeds(u.sheet.rows[j], k)
    ensures k in Extracted(u, kpi)
    ensures Extracted(u, kpi)[k] == Percent(CellAt(u.sheet.rows[i], ValueColumn(u, kpi).value))
  {
    var rows := u.sheet.rows[1..];
    assert rows[i - 1] == u.sheet.rows[i];
    forall j | i - 1 < j < |rows|
      ensures !Feeds(rows[j], k)
    {
      assert rows[j] == u.sheet.rows[j + 1];
    }
    CollectLastWins(rows, ValueColumn(u, kpi).value, k, i - 1);
  }

  /**
   * `procesar_archivo_kpi`: the checks before the row loop, each of which
   * gives the empty map.
   */
  method ExtractSheet(u: Upload, kpi: string) returns (resultado: Extract)
    ensures resultado == Extracted(u, kpi)
  {
    if u.Unreadable? {
      return map[];
    }
    var df := u.sheet;
    if IsEmptySheet(df) {
      return map[];
    }
    var located := LocateColumn(df, kpi);
    if located.None? || IsFalsy(df.header[located.value]) {
      return map[];
    }
    resultado := CollectRows(df.rows[1..], located.value);
  }

  /** One more row: skipped, or its name mapped to its percentage. */
  lemma CollectStep(rows: seq<seq<Cell>>, i: nat, col: nat)
    requires i < |rows|
    ensures Collect(rows[..i + 1], col) ==
      if IsSkipped(CellAt(rows[i], 0)) then Collect(rows[..i], col)
      else Collect(rows[..i], col)[CellText(CellAt(rows[i], 0)) := Percent(CellAt(rows[i], col))]
  {
    assert rows[..i + 1][..i] == rows[..i];
  }

  /**
   * The row loop of `procesar_archivo_kpi`: rows that are not executives are
   * skipped, and a later row with the same name overwrites an earlier one.
   */
  method CollectRows(rows: seq<seq<Cell>>, columnaValor: nat) returns (resultado: Extract)
    ensures resultado == Collect(rows, columnaValor)
  {
    resultado := map[];
    var i := 0;
    while i < |rows|
      invariant 0 <= i <= |rows|
      invariant resultado == Collect(rows[..i], columnaValor)
    {
      CollectStep(rows, i, columnaValor);
      var ejecutivo := CellAt(rows[i], 0);
      var valor := CellAt(rows[i], columnaValor);
      if !IsSkipped(ejecutivo) {
        var valorNormalizado := Normalize(valor);
        if valorNormalizado.Some? {
          resultado := resultado[CellText(ejecutivo) := Some(Round(valorNormalizado.value * 100.0, 2))];
        } else {
          resultado := resultado[CellText(ejecutivo) := None];
        }
      }
      i := i + 1;
    }
    assert rows[..|rows|] == rows;
  }
}
