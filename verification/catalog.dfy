/**
 The fixed lighting catalog: five regular T5 segment types, largest first,
 followed by the power cord ("T5코드"), which is never searched over.
 */
module Catalog {
  import opened Wrappers

  /** A length that can divide a budget. */
  type PositiveLength = n: int | n > 0 witness 1

  /** One catalog entry: the printed (nominal) length and the space it really
      occupies once installed (actual), both in millimetres. */
  datatype LightingType = LightingType(name: string, nominalLength: int, actualLength: PositiveLength)

  const CordName: string := "T5코드"

  const LightingTypes: seq<LightingType> := [
    LightingType("1200", 1200, 1160),
    LightingType("900", 900, 860),
    LightingType("600", 600, 560),
    LightingType("400", 400, 390),
    LightingType("300", 300, 300),
    LightingType(CordName, 60, 60)
  ]

  /** The regular segment types: the catalog with its last (cord) entry dropped. */
  const Regular: seq<LightingType> := LightingTypes[..|LightingTypes| - 1]

  const RegularCount: nat := 5

  /** The length reserved for one cord. The search uses this literal rather
      than the catalog's cord entry; the two agree (see CordLengthAgrees). */
  const CordLength: int := 60

  /** Index of the first entry of `types` called `name`, if any. */
  function FindByName(types: seq<LightingType>, name: string): (r: Option<nat>)
    ensures r.Some? ==> r.value < |types| && types[r.value].name == name
    ensures r.Some? ==> forall j :: 0 <= j < r.value ==> types[j].name != name
    ensures r.None? <==> forall j :: 0 <= j < |types| ==> types[j].name != name
  {
    if |types| == 0 then None
    else if types[0].name == name then Some(0)
    else match FindByName(types[1..], name)
      case None => None
      case Some(i) => Some(i + 1)
  }

  /** Catalog lookup by name (the `find` over the catalog). */
  function Lookup(name: string): Option<LightingType>
  {
    match FindByName(LightingTypes, name)
    case None => None
    case Some(i) => Some(LightingTypes[i])
  }

  /** The regular types are the first five catalog entries, none of them the cord. */
  lemma RegularShape(k: nat)
    requires k < RegularCount
    ensures |Regular| == RegularCount
    ensures Regular[k] == LightingTypes[k]
    ensures Regular[k].name != CordName
  {
  }

  /** An entry whose name no earlier entry has is what the lookup finds. */
  lemma FindFirst(types: seq<LightingType>, name: string, k: nat)
    requires k < |types| && types[k].name == name
    requires forall j :: 0 <= j < k ==> types[j].name != name
    ensures FindByName(types, name) == Some(k)
  {
  }

  /** Looking a regular type up by name finds its own position. */
  lemma RegularIndex(k: nat)
    requires k < RegularCount
    ensures FindByName(LightingTypes, Regular[k].name) == Some(k)
  {
    FindFirst(LightingTypes, Regular[k].name, k);
  }

  /** The regular names are pairwise distinct. */
  lemma RegularNamesDistinct(i: nat, j: nat)
    requires i < RegularCount && j < RegularCount && i != j
    ensures Regular[i].name != Regular[j].name
  {
    RegularIndex(i);
    RegularIndex(j);
  }

  lemma CordLengthAgrees()
    ensures FindByName(LightingTypes, CordName) == Some(5)
    ensures LightingTypes[5].actualLength == CordLength
  {
    FindFirst(LightingTypes, CordName, 5);
  }
}
