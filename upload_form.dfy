/**
 * The selection step of `upload_files`: which KPIs the form marks as
 * omitted, and which uploaded files are kept for processing.
 */
module UploadForm {
  import opened Sheets
  import opened Kpis

  /** A KPI's position in the fixed order. */
  function Rank(k: Kpi): (r: nat)
    ensures r < |AllKpis| && AllKpis[r] == k
  {
    match k
    case TMO => 0
    case TransfEPA => 1
    case Tipificaciones => 2
    case SatEP => 3
    case ResEP => 4
    case SatSNL => 5
    case ResSNL => 6
  }

  /** An `omitir_*` field that was sent with the value "on". */
  predicate IsOn(flags: map<Kpi, string>, k: Kpi)
  {
    k in flags && flags[k] == "on"
  }

  /** `[k]` when the flag of `k` is on, else nothing. */
  function IfOn(flags: map<Kpi, string>, k: Kpi): seq<Kpi>
  {
    if IsOn(flags, k) then [k] else []
  }

  /** The KPIs of `ks` whose flag is on, in the order of `ks`. */
  function FlaggedIn(flags: map<Kpi, string>, ks: seq<Kpi>): seq<Kpi>
  {
    if ks == [] then []
    else FlaggedIn(flags, ks[..|ks| - 1]) + IfOn(flags, ks[|ks| - 1])
  }

  /** `kpis_omitidos` for the submitted flags. */
  function Omitted(flags: map<Kpi, string>): seq<Kpi>
  {
    FlaggedIn(flags, AllKpis)
  }

  predicate InFixedOrder(ks: seq<Kpi>)
  {
    forall i, j :: 0 <= i < j < |ks| ==> Rank(ks[i]) < Rank(ks[j])
  }

  /** The fixed order is the order of the ranks. */
  lemma AllKpisInOrder()
    ensures InFixedOrder(AllKpis)
  {
    forall i, j | 0 <= i < j < |AllKpis|
      ensures Rank(AllKpis[i]) < Rank(AllKpis[j])
    {
      AllKpisComplete(AllKpis[i]);
    }
  }

  lemma {:induction false} FlaggedInSpec(flags: map<Kpi, string>, ks: seq<Kpi>)
    requires InFixedOrder(ks)
    ensures InFixedOrder(FlaggedIn(flags, ks))
    ensures forall k :: k in FlaggedIn(flags, ks) <==> k in ks && IsOn(flags, k)
  {
    if ks != [] {
      var init, last := ks[..|ks| - 1], ks[|ks| - 1];
      FlaggedInSpec(flags, init);
      forall k | k in FlaggedIn(flags, init)
        ensures Rank(k) < Rank(last)
      {
        var j :| 0 <= j < |init| && init[j] == k;
      }
      assert ks == init + [last];
    }
  }

  /**
   * A KPI is omitted exactly when its flag is "on"; the omitted list follows
   * the fixed order TMO, TransfEPA, Tipificaciones, SatEP, ResEP, SatSNL,
   * ResSNL, so it holds each KPI at most once.
   */
  lemma OmittedSpec(flags: map<Kpi, string>)
    ensures forall k :: k in Omitted(flags) <==> IsOn(flags, k)
    ensures InFixedOrder(Omitted(flags))
  {
    AllKpisInOrder();
    FlaggedInSpec(flags, AllKpis);
    forall k ensures k in Omitted(flags) <==> IsOn(flags, k) {
      AllKpisComplete(k);
    }
  }

  /**
   * The `kpis_omitidos` list of `upload_files`: the seven flag tests, in the
   * fixed order, each appending its KPI when the flag is "on".
   */
  method OmittedList(flags: map<Kpi, string>) returns (kpisOmitidos: seq<Kpi>)
    ensures kpisOmitidos == Omitted(flags)
  {
    kpisOmitidos := [];
    for i := 0 to |AllKpis|
      invariant kpisOmitidos == FlaggedIn(flags, AllKpis[..i])
    {
      assert AllKpis[..i + 1][..i] == AllKpis[..i];
      if IsOn(flags, AllKpis[i]) {
        kpisOmitidos := kpisOmitidos + [AllKpis[i]];
      }
    }
    assert AllKpis[..|AllKpis|] == AllKpis;
  }

  /**
   * The `archivos_data` map of `upload_files`: the seven file tests, each
   * adding the KPI's file when it was uploaded and is not omitted.
   */
  method KeptFiles(uploads: map<Kpi, Upload>, kpisOmitidos: seq<Kpi>) returns (archivosData: map<Kpi, Upload>)
    ensures forall k :: k in archivosData <==> k in uploads && k !in kpisOmitidos
    ensures forall k :: k in archivosData ==> archivosData[k] == uploads[k]
  {
    archivosData := map[];
    for i := 0 to |AllKpis|
      invariant forall k :: k in archivosData <==> k in uploads && k !in kpisOmitidos && k in AllKpis[..i]
      invariant forall k :: k in archivosData ==> archivosData[k] == uploads[k]
    {
      var kpi := AllKpis[i];
      assert AllKpis[..i + 1] == AllKpis[..i] + [kpi];
      if kpi in uploads && kpi !in kpisOmitidos {
        archivosData := archivosData[kpi := uploads[kpi]];
      }
    }
    forall k ensures k in AllKpis {
      AllKpisComplete(k);
    }
    assert AllKpis[..|AllKpis|] == AllKpis;
  }
}
