/**
 * What the spreadsheet reader hands the ingestion core: cells, a sheet read
 * with its first row taken as the header, and the same file read without a
 * header. The reader itself is not part of this model.
 */
module Sheets {
  import opened Text

  /**
   * One spreadsheet cell. `Empty` is a missing (NaN) cell; a number carries
   * the text that `str()` gives for it.
   */
  datatype Cell = Empty | Str(s: string) | Num(value: real, text: string)

  /** `str(cell)` */
  function CellText(c: Cell): string
  {
    match c
    case Empty => "nan"
    case Str(s) => s
    case Num(_, t) => t
  }

  /** Python truthiness of a column label: `""` and `0` are false, NaN is true. */
  predicate IsFalsy(c: Cell)
  {
    c == Str("") || (c.Num? && c.value == 0.0)
  }

  /** A sheet read with header inference: column labels and the data rows under them. */
  datatype Sheet = Sheet(header: seq<Cell>, rows: seq<seq<Cell>>)

  /** The cell of `row` in column `j`; a short row reads as missing cells. */
  function CellAt(row: seq<Cell>, j: nat): Cell
  {
    if j < |row| then row[j] else Empty
  }

  /** `df.empty`: no rows or no columns. */
  predicate IsEmptySheet(sheet: Sheet)
  {
    |sheet.rows| == 0 || |sheet.header| == 0
  }

  /** The values of data row `i` across all columns (`df.iloc[i].values`). */
  function RowValues(sheet: Sheet, i: nat): (r: seq<Cell>)
    requires i < |sheet.rows|
    ensures |r| == |sheet.header|
  {
    seq(|sheet.header|, j requires 0 <= j < |sheet.header| => CellAt(sheet.rows[i], j))
  }

  /**
   * An uploaded file: either unreadable (the reader raises), or read twice,
   * once with a header row and once raw.
   */
  datatype Upload = Unreadable | Readable(sheet: Sheet, raw: seq<seq<Cell>>)
}
