/**
 * `unificar_datos_kpi`: the extracts of the KPI files that were not omitted
 * become one record per executive, in ascending name order, each with a
 * value (or nothing) for every one of the seven KPIs.
 */
module Unifier {
  import opened Wrappers
  import opened Sheets
  import opened SheetExtractor
  import opened StringOrder
  import opened Kpis

  /** `{"ejecutivo": name, "tmo": ..., ..., "ressnl": ...}`; field `Key(k)` holds `values[k]`. */
  datatype Record = Record(ejecutivo: string, values: map<Kpi, Option<real>>)

  /** `datos_por_kpi`: the extract of every uploaded KPI that is not omitted. */
  function Extracts(files: map<Kpi, Upload>, omitted: seq<Kpi>): map<Kpi, Extract>
  {
    map k | k in files && k !in omitted :: Extracted(files[k], Name(k))
  }

  /** `todos_ejecutivos`: every name any extract has. */
  function AllNames(datos: map<Kpi, Extract>): set<string>
  {
    set k, n | k in datos && n in datos[k] :: n
  }

  /** The value a record of `name` holds for KPI `k`. */
  function ValueFor(datos: map<Kpi, Extract>, omitted: seq<Kpi>, name: string, k: Kpi): Option<real>
  {
    if k in omitted then None
    else if k in datos && name in datos[k] then datos[k][name]
    else None
  }

  /** The record emitted for `name`. */
  function RecordFor(datos: map<Kpi, Extract>, omitted: seq<Kpi>, name: string): Record
  {
    Record(name, map k | k in AllKpis :: ValueFor(datos, omitted, name, k))
  }

  /** The executive names of the records, in order. */
  function Names(registros: seq<Record>): (r: seq<string>)
    ensures |r| == |registros|
    ensures forall i :: 0 <= i < |r| ==> r[i] == registros[i].ejecutivo
  {
    if registros == [] then []
    else Names(registros[..|registros| - 1]) + [registros[|registros| - 1].ejecutivo]
  }

  /** What `unificar_datos_kpi(archivos_data, kpis_omitidos)` promises of its result. */
  ghost predicate IsUnified(files: map<Kpi, Upload>, omitted: seq<Kpi>, registros: seq<Record>)
  {
    && StrictlySorted(Names(registros))
    && (forall n :: n in Names(registros) <==> n in AllNames(Extracts(files, omitted)))
    && (forall i :: 0 <= i < |registros| ==>
          registros[i] == RecordFor(Extracts(files, omitted), omitted, registros[i].ejecutivo))
  }

  /**
   * Every record has exactly the seven KPI fields; an omitted KPI holds
   * nothing; a KPI whose file is missing or whose extract lacks the name
   * holds nothing; otherwise the field is the extract's value.
   */
  lemma RecordFields(files: map<Kpi, Upload>, omitted: seq<Kpi>, name: string, k: Kpi)
    ensures var r := RecordFor(Extracts(files, omitted), omitted, name);
      && r.ejecutivo == name
      && r.values.Keys == set k' | k' in AllKpis
      && k in r.values
      && (k in omitted ==> r.values[k] == None)
      && (k !in files ==> r.values[k] == None)
      && (k in files && k !in omitted ==>
            r.values[k] == (var e := Extracted(files[k], Name(k)); if name in e then e[name] else None))
  {
    AllKpisComplete(k);
  }

  /** The names of the result are exactly the names found in the files that were not omitted. */
  lemma NamesFromFiles(files: map<Kpi, Upload>, omitted: seq<Kpi>, n: string)
    ensures n in AllNames(Extracts(files, omitted)) <==>
      exists k :: k in files && k !in omitted && n in Extracted(files[k], Name(k))
  {
    if exists k :: k in files && k !in omitted && n in Extracted(files[k], Name(k)) {
      var k :| k in files && k !in omitted && n in Extracted(files[k], Name(k));
      assert n in Extracts(files, omitted)[k];
    }
  }

  /** The result is determined by the files and the omitted list: there is one unified list. */
  lemma UnifiedUnique(files: map<Kpi, Upload>, omitted: seq<Kpi>, a: seq<Record>, b: seq<Record>)
    requires IsUnified(files, omitted, a) && IsUnified(files, omitted, b)
    ensures a == b
  {
    SortedUnique(Names(a), Names(b));
    assert |a| == |b|;
    forall i | 0 <= i < |a|
      ensures a[i] == b[i]
    {
      assert Names(a)[i] == Names(b)[i];
    }
  }

  /** The loop filling `datos_por_kpi`: one extract per uploaded KPI that is not omitted. */
  method ExtractAll(files: map<Kpi, Upload>, omitted: seq<Kpi>) returns (datos: map<Kpi, Extract>)
    ensures datos == Extracts(files, omitted)
  {
    datos := map[];
    var pending := files.Keys;
    while pending != {}
      invariant pending <= files.Keys
      invariant datos == map k | k in files && k !in pending && k !in omitted :: Extracted(files[k], Name(k))
      decreases |pending|
    {
      var kpi :| kpi in pending;
      if kpi !in omitted {
        var e := ExtractSheet(files[kpi], Name(kpi));
        datos := datos[kpi := e];
      }
      pending := pending - {kpi};
    }
  }

  /** The loop filling `todos_ejecutivos` with the keys of every extract. */
  method CollectNames(datos: map<Kpi, Extract>) returns (todos: set<string>)
    ensures todos == AllNames(datos)
  {
    todos := {};
    var pending := datos.Keys;
    while pending != {}
      invariant pending <= datos.Keys
      invariant todos == set k, n | k in datos && k !in pending && n in datos[k] :: n
      decreases |pending|
    {
      var kpi :| kpi in pending;
      todos := todos + datos[kpi].Keys;
      pending := pending - {kpi};
    }
  }

  /** The inner loop over the seven KPIs building one record. */
  method BuildRecord(datos: map<Kpi, Extract>, omitted: seq<Kpi>, ejecutivo: string) returns (registro: Record)
    ensures registro == RecordFor(datos, omitted, ejecutivo)
  {
    var values: map<Kpi, Option<real>> := map[];
    for i := 0 to |AllKpis|
      invariant forall k :: k in values <==> k in AllKpis[..i]
      invariant forall k :: k in values ==> values[k] == ValueFor(datos, omitted, ejecutivo, k)
    {
      var kpi := AllKpis[i];
      assert AllKpis[..i + 1] == AllKpis[..i] + [kpi];
      if kpi in omitted {
        values := values[kpi := None];
      } else if kpi in datos && ejecutivo in datos[kpi] {
        values := values[kpi := datos[kpi][ejecutivo]];
      } else {
        values := values[kpi := None];
      }
    }
    assert AllKpis[..|AllKpis|] == AllKpis;
    registro := Record(ejecutivo, values);
  }

  /** Appending a record appends its name. */
  lemma NamesSnoc(registros: seq<Record>, registro: Record)
    ensures Names(registros + [registro]) == Names(registros) + [registro.ejecutivo]
  {
    assert (registros + [registro])[..|registros|] == registros;
  }

  /** The outer loop: one record per name, in the order of `ordenados`. */
  method BuildRecords(datos: map<Kpi, Extract>, omitted: seq<Kpi>, ordenados: seq<string>)
    returns (registros: seq<Record>)
    ensures Names(registros) == ordenados
    ensures forall j :: 0 <= j < |registros| ==> registros[j] == RecordFor(datos, omitted, registros[j].ejecutivo)
  {
    registros := [];
    for i := 0 to |ordenados|
      invariant Names(registros) == ordenados[..i]
      invariant forall j :: 0 <= j < |registros| ==> registros[j] == RecordFor(datos, omitted, registros[j].ejecutivo)
    {
      var registro := BuildRecord(datos, omitted, ordenados[i]);
      NamesSnoc(registros, registro);
      registros := registros + [registro];
      assert ordenados[..i + 1] == ordenados[..i] + [ordenados[i]];
    }
    assert ordenados[..|ordenados|] == ordenados;
  }

  /** `unificar_datos_kpi(archivos_data, kpis_omitidos)` */
  method Unify(files: map<Kpi, Upload>, omitted: seq<Kpi>) returns (registros: seq<Record>)
    ensures IsUnified(files, omitted, registros)
  {
    var datos := ExtractAll(files, omitted);
    var todos := CollectNames(datos);
    var ordenados := SortNames(todos);
    registros := BuildRecords(datos, omitted, ordenados);
  }
}
