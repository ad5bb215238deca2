/**
 * `detectar_tipo_kpi`: an advisory guess of which metric family and which
 * service segment an uploaded file holds, for the upload confirmation screen.
 */
module KpiDetector {
  import opened Wrappers
  import opened Text
  import opened Sheets

  datatype Metric = Satisfaccion | Resolucion | Tmo | TransfEpa | Tipificaciones
  datatype Segment = EP | SNL

  /** The `metrica` value reported for each family. */
  function MetricName(m: Metric): string
  {
    match m
    case Satisfaccion => "SATISFACCION"
    case Resolucion => "RESOLUCION"
    case Tmo => "TMO"
    case TransfEpa => "TRANSF EPA"
    case Tipificaciones => "TIPIFICACIONES"
  }

  function SegmentName(s: Segment): string
  {
    match s
    case EP => "EP"
    case SNL => "SNL"
  }

  /** The ordered rule table: the first keyword found decides the family. */
  const MetricRules: seq<(string, Metric)> :=
    [("SATISF", Satisfaccion), ("RESOL", Resolucion), ("TMO", Tmo), ("TRANSF", TransfEpa), ("TIPIF", Tipificaciones)]

  /** The first rule at or after `from` whose keyword occurs in `text`. */
  function FirstRule(text: string, from: nat): (r: Option<nat>)
    decreases |MetricRules| - from
    ensures r.Some? ==> from <= r.value < |MetricRules| && Contains(text, MetricRules[r.value].0)
    ensures r.Some? ==> forall i :: from <= i < r.value ==> !Contains(text, MetricRules[i].0)
    ensures r.None? ==> forall i :: from <= i < |MetricRules| ==> !Contains(text, MetricRules[i].0)
  {
    if from >= |MetricRules| then None
    else if Contains(text, MetricRules[from].0) then Some(from)
    else FirstRule(text, from + 1)
  }

  /** The first data row, each cell through `str()`, joined by spaces and upper-cased. */
  function FirstRowText(sheet: Sheet): string
    requires |sheet.rows| > 0
  {
    Upper(Join(" ", seq(|sheet.header|, j requires 0 <= j < |sheet.header| => CellText(RowValues(sheet, 0)[j]))))
  }

  /** The metric family named in the first data row, if any. */
  function DetectMetric(sheet: Sheet): Option<Metric>
  {
    if |sheet.rows| == 0 then None
    else match FirstRule(FirstRowText(sheet), 0)
      case None => None
      case Some(i) => Some(MetricRules[i].1)
  }

  /**
   * SATISF beats RESOL, which beats TMO, then TRANSF, then TIPIF: a family is
   * reported exactly when its keyword occurs and no earlier one does.
   */
  lemma MetricPriority(sheet: Sheet, i: nat)
    requires |sheet.rows| > 0 && i < |MetricRules|
    ensures DetectMetric(sheet) == Some(MetricRules[i].1) <==>
      Contains(FirstRowText(sheet), MetricRules[i].0) &&
      forall k :: 0 <= k < i ==> !Contains(FirstRowText(sheet), MetricRules[k].0)
  {
    var t := FirstRowText(sheet);
    var r := FirstRule(t, 0);
    if r.Some? && r.value != i {
      assert MetricRules[r.value].1 != MetricRules[i].1;
    }
  }

  /** A string cell that mentions "SERVICIO es" (the applied-filters line). */
  predicate IsServiceCell(c: Cell)
  {
    c.Str? && c.s != "" && Contains(c.s, "SERVICIO es")
  }

  /** What a service cell says: EP is checked before SNL; anything else says nothing. */
  function ServiceOf(s: string): Option<Segment>
  {
    if Contains(s, "SERVICIO es EP") then Some(EP)
    else if Contains(s, "SERVICIO es SNL") then Some(SNL)
    else None
  }

  /** What row `row` says from column `j` on: only its first service cell counts. */
  function RowSegmentFrom(row: seq<Cell>, j: nat): Option<Segment>
    decreases |row| - j
  {
    if j >= |row| then None
    else if IsServiceCell(row[j]) then ServiceOf(row[j].s)
    else RowSegmentFrom(row, j + 1)
  }

  function RowSegment(row: seq<Cell>): Option<Segment>
  {
    RowSegmentFrom(row, 0)
  }

  /** The segment after scanning `rows`: the last row that says something decides. */
  function LastSegment(rows: seq<seq<Cell>>): Option<Segment>
  {
    if rows == [] then None
    else match RowSegment(rows[|rows| - 1])
      case Some(s) => Some(s)
      case None => LastSegment(rows[..|rows| - 1])
  }

  /**
   * The segment found is the one of the last row that names one; later rows
   * name none. No segment is found exactly when no row names one.
   */
  lemma {:induction false} LastRowWins(rows: seq<seq<Cell>>)
    ensures LastSegment(rows).Some? ==>
      exists i :: 0 <= i < |rows| && RowSegment(rows[i]) == LastSegment(rows) &&
        forall k :: i < k < |rows| ==> RowSegment(rows[k]).None?
    ensures LastSegment(rows).None? <==> forall i :: 0 <= i < |rows| ==> RowSegment(rows[i]).None?
  {
    if rows != [] {
      var init := rows[..|rows| - 1];
      LastRowWins(init);
      if RowSegment(rows[|rows| - 1]).Some? {
        assert RowSegment(rows[|rows| - 1]) == LastSegment(rows);
      } else if LastSegment(init).Some? {
        var i :| 0 <= i < |init| && RowSegment(init[i]) == LastSegment(init) &&
          forall k :: i < k < |init| ==> RowSegment(init[k]).None?;
        assert rows[i] == init[i];
        forall k | i < k < |rows|
          ensures RowSegment(rows[k]).None?
        {
          if k < |init| {
            assert rows[k] == init[k];
          }
        }
      } else {
        forall i | 0 <= i < |rows|
          ensures RowSegment(rows[i]).None?
        {
          if i < |init| {
            assert rows[i] == init[i];
          }
        }
      }
    }
  }

  /**
   * The scan of the raw rows. The `break` leaves only the inner loop, so
   * every row is looked at and a later row overrides an earlier one.
   */
  method ScanSegment(raw: seq<seq<Cell>>) returns (servicio: Option<Segment>)
    ensures servicio == LastSegment(raw)
  {
    servicio := None;
    var i := 0;
    while i < |raw|
      invariant 0 <= i <= |raw|
      invariant servicio == LastSegment(raw[..i])
    {
      var row := raw[i];
      var j := 0;
      while j < |row|
        invariant 0 <= j <= |row|
        invariant RowSegmentFrom(row, j) == RowSegment(row)
        invariant servicio == LastSegment(raw[..i])
      {
        var cell := row[j];
        if cell.Str? && cell.s != "" && Contains(cell.s, "SERVICIO es") {
          if Contains(cell.s, "SERVICIO es EP") {
            servicio := Some(EP);
          } else if Contains(cell.s, "SERVICIO es SNL") {
            servicio := Some(SNL);
          }
          break;
        }
        j := j + 1;
      }
      assert raw[..i + 1][..i] == raw[..i];
      i := i + 1;
    }
    assert raw[..|raw|] == raw;
  }

  /** The detector's answer: display label, segment and family. */
  datatype Detection = Detection(tipo: string, servicio: string, metrica: string)

  const DetectionError := Detection("Error al detectar", "N/A", "N/A")

  /** The display label and the reported fields for a family and a segment. */
  function Describe(m: Option<Metric>, s: Option<Segment>): Detection
  {
    var tipo :=
      if m.Some? && s.Some? then
        match m.value
        case Satisfaccion => "Satisfacción " + SegmentName(s.value)
        case Resolucion => "Resolución " + SegmentName(s.value)
        case TransfEpa => "Transferencias " + SegmentName(s.value)
        case _ => MetricName(m.value)
      else if m.Some? then MetricName(m.value)
      else "Desconocido";
    Detection(tipo,
              if s.Some? then SegmentName(s.value) else "N/A",
              if m.Some? then MetricName(m.value) else "N/A")
  }

  /** Only Satisfacción, Resolución and Transferencias carry the segment in their label. */
  predicate SegmentQualified(m: Metric)
  {
    m == Satisfaccion || m == Resolucion || m == TransfEpa
  }

  /**
   * The display label identifies the family, and for a segment-qualified
   * family also the segment; TMO and Tipificaciones labels ignore the segment.
   */
  lemma LabelIdentifies(m1: Metric, s1: Option<Segment>, m2: Metric, s2: Option<Segment>)
    requires Describe(Some(m1), s1).tipo == Describe(Some(m2), s2).tipo
    ensures m1 == m2
    ensures SegmentQualified(m1) && s1.Some? && s2.Some? ==> s1 == s2
  {
    var t1, t2 := Describe(Some(m1), s1).tipo, Describe(Some(m2), s2).tipo;
    LabelHead(m1, s1);
    LabelHead(m2, s2);
    if s1.Some? && s2.Some? && SegmentQualified(m1) {
      assert t1[|t1| - 1] == t2[|t2| - 1];
    }
  }

  /**
   * The family a label's first two characters stand for. The service has no
   * such decoder: it serves only to prove that labels identify their family.
   */
  function FamilyOf(tipo: string): Metric
    requires |tipo| >= 2
  {
    if tipo[0] == 'S' then Satisfaccion
    else if tipo[0] == 'R' then Resolucion
    else if tipo[1] == 'M' then Tmo
    else if tipo[1] == 'I' then Tipificaciones
    else TransfEpa
  }

  /** Every label starts with two characters naming its family. */
  lemma LabelHead(m: Metric, s: Option<Segment>)
    ensures |Describe(Some(m), s).tipo| >= 2
    ensures FamilyOf(Describe(Some(m), s).tipo) == m
  {
    var t := Describe(Some(m), s).tipo;
    var seg := if s.Some? then SegmentName(s.value) else "";
    match m
    case Satisfaccion =>
      if s.Some? { assert t == "Satisfacción " + seg; } else { assert t == "SATISFACCION" + seg; }
    case Resolucion =>
      if s.Some? { assert t == "Resolución " + seg; } else { assert t == "RESOLUCION" + seg; }
    case Tmo =>
      assert t == "TMO";
    case TransfEpa =>
      if s.Some? { assert t == "Transferencias " + seg; } else { assert t == "TRANSF EPA" + seg; }
    case Tipificaciones =>
      assert t == "TIPIFICACIONES";
  }

  /**
   * `detectar_tipo_kpi`: an unreadable file gives the error sentinel;
   * otherwise the family comes from the first data row and the segment from
   * the raw scan.
   */
  method Detect(u: Upload) returns (d: Detection)
    ensures u.Unreadable? ==> d == DetectionError
    ensures u.Readable? ==> d == Describe(DetectMetric(u.sheet), LastSegment(u.raw))
    ensures u.Readable? && DetectMetric(u.sheet).None? ==> d.tipo == "Desconocido" && d.metrica == "N/A"
    ensures u.Readable? && LastSegment(u.raw).None? ==> d.servicio == "N/A"
  {
    if u.Unreadable? {
      return DetectionError;
    }
    var metrica := DetectMetric(u.sheet);
    var servicio := ScanSegment(u.raw);
    d := Describe(metrica, servicio);
  }
}
