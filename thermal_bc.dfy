/** The thermal boundary-condition kinds and the type tag that selects among them
    when a BC is read back: `ThermalBC.load` and the `save` methods of `HeatFluxBC`,
    `ConvectiveBC`, `FixedTempBC` and `FilmCoefficientConvectiveBC` in
    srlife/receiver.py. */
module ThermalBCs {
  import opened Wrappers
  import opened Errors

  datatype BCKind = HeatFlux | Convective | FixedTemp | FilmCoefficientConvective

  /** A thermal BC as a tube sees it: its kind and the radius and height it is
      applied at. The time and space data it interpolates are not modelled. */
  datatype ThermalBC = ThermalBC(kind: BCKind, r: real, h: real)

  /** The "type" attribute that each class's `save` writes. */
  function TypeTag(kind: BCKind): string {
    match kind
    case HeatFlux => "HeatFlux"
    case Convective => "Convective"
    case FixedTemp => "FixedTemp"
    case FilmCoefficientConvective => "FilmCoefficientConvective"
  }

  /** `ThermalBC.load`: the class a stored type tag selects. Exactly the tags that
      some `save` writes are accepted, and each selects the class that wrote it. */
  function KindOfTag(tag: string): (r: Result<BCKind, Error>)
    ensures r.Ok? ==> TypeTag(r.value) == tag
    ensures r.Err? ==> r.error == UnknownBCType(tag) && forall k :: TypeTag(k) != tag
  {
    if tag == "HeatFlux" then Ok(HeatFlux)
    else if tag == "Convective" then Ok(Convective)
    else if tag == "FixedTemp" then Ok(FixedTemp)
    else if tag == "FilmCoefficientConvective" then Ok(FilmCoefficientConvective)
    else Err(UnknownBCType(tag))
  }

  /** Saving a BC and dispatching on the tag it wrote selects its own class again. */
  lemma {:induction false} KindOfTypeTag(kind: BCKind)
    ensures KindOfTag(TypeTag(kind)) == Ok(kind)
  {
  }
}
