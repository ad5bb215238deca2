/** The seven KPI files an upload may carry, in the order the upload form and the unifier list them. */
module Kpis {
  import opened Text

  datatype Kpi = TMO | TransfEPA | Tipificaciones | SatEP | ResEP | SatSNL | ResSNL

  /** The name the upload form and the extractor use for the KPI. */
  function Name(k: Kpi): string
  {
    match k
    case TMO => "TMO"
    case TransfEPA => "TransfEPA"
    case Tipificaciones => "Tipificaciones"
    case SatEP => "SatEP"
    case ResEP => "ResEP"
    case SatSNL => "SatSNL"
    case ResSNL => "ResSNL"
  }

  /** The record field for the KPI: its name lower-cased. */
  function Key(k: Kpi): string
  {
    Lower(Name(k))
  }

  /** The fixed order of the record fields and of the omit flags. */
  const AllKpis: seq<Kpi> := [TMO, TransfEPA, Tipificaciones, SatEP, ResEP, SatSNL, ResSNL]

  /** Every KPI appears in the fixed order exactly once. */
  lemma AllKpisComplete(k: Kpi)
    ensures k in AllKpis
    ensures forall i, j :: 0 <= i < j < |AllKpis| ==> AllKpis[i] != AllKpis[j]
  {
  }

  /** The record fields are these seven lower-case strings. */
  lemma KeyLiterals()
    ensures Key(TMO) == "tmo" && Key(TransfEPA) == "transfepa"
    ensures Key(Tipificaciones) == "tipificaciones"
    ensures Key(SatEP) == "satep" && Key(ResEP) == "resep"
    ensures Key(SatSNL) == "satsnl" && Key(ResSNL) == "ressnl"
  {
    assert Lower("TMO") == "tmo";
    assert Lower("TransfEPA") == "transfepa";
    assert Lower("Tipificaciones") == "tipificaciones";
    assert Lower("SatEP") == "satep";
    assert Lower("ResEP") == "resep";
    assert Lower("SatSNL") == "satsnl";
    assert Lower("ResSNL") == "ressnl";
  }

  /** Distinct KPIs have distinct record fields, so a record has exactly seven of them. */
  lemma KeysDistinct(a: Kpi, b: Kpi)
    requires a != b
    ensures Key(a) != Key(b)
  {
    KeyLiterals();
  }
}
