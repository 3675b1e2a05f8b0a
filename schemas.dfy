/** The request and response bodies of the home endpoints: the creation
    payload with its field constraints, and the record returned to clients. */
module Schemas {
  import opened Wrappers
  import opened Models

  const MinSizeSqm := 1
  const MaxSizeSqm := 10000
  const MinYearBuilt := 1800
  const MaxYearBuilt := 2026
  const MaxNotesLength := 2000

  /** `HomeCreate` after parsing: enumerations are members, not strings. */
  datatype HomeCreate = HomeCreate(
    sizeSqm: int,
    yearBuilt: Option<int>,
    heatingType: HeatingType,
    insulation: Option<InsulationLevel>,
    notes: Option<string>)

  /** The field constraints of `HomeCreate`: a size of 1 to 10000 square
      metres, a construction year of 1800 to 2026 when one is given, and notes
      of at most 2000 characters when given. The heating type is required and
      the insulation optional, which the types already say. */
  predicate Valid(d: HomeCreate)
  {
    && MinSizeSqm <= d.sizeSqm <= MaxSizeSqm
    && (d.yearBuilt.Some? ==> MinYearBuilt <= d.yearBuilt.value <= MaxYearBuilt)
    && (d.notes.Some? ==> |d.notes.value| <= MaxNotesLength)
  }

  /** The JSON body of a create request as received: every key may be
      missing or null (both `None`), and the enumerations are strings. */
  datatype Payload = Payload(
    sizeSqm: Option<int>,
    yearBuilt: Option<int>,
    heatingType: Option<string>,
    insulation: Option<string>,
    notes: Option<string>)

  /** The fields of `HomeCreate`, in declaration order, as named in a
      validation error. */
  datatype Field = SizeSqm | YearBuilt | Heating | Insulation | Notes

  /** Whether the payload's value for field `f` passes that field's rule. */
  predicate Accepted(p: Payload, f: Field)
  {
    match f
    case SizeSqm => p.sizeSqm.Some? && MinSizeSqm <= p.sizeSqm.value <= MaxSizeSqm
    case YearBuilt => p.yearBuilt.Some? ==> MinYearBuilt <= p.yearBuilt.value <= MaxYearBuilt
    case Heating => p.heatingType.Some? && ParseHeatingType(p.heatingType.value).Some?
    case Insulation => p.insulation.Some? ==> ParseInsulationLevel(p.insulation.value).Some?
    case Notes => p.notes.Some? ==> |p.notes.value| <= MaxNotesLength
  }

  /** The payload a client sends for a given `HomeCreate`. */
  function Encode(d: HomeCreate): Payload
  {
    Payload(
      Some(d.sizeSqm),
      d.yearBuilt,
      Some(HeatingTypeValue(d.heatingType)),
      if d.insulation.Some? then Some(InsulationValue(d.insulation.value)) else None,
      d.notes)
  }

  function RejectedIf(rejected: bool, f: Field): seq<Field>
  {
    if rejected then [f] else []
  }

  /** Parsing and validating a request body into `HomeCreate`: every field
      that breaks its rule is reported, in declaration order; a body that
      passes gives the typed record. */
  function Validate(p: Payload): (r: Result<HomeCreate, seq<Field>>)
    ensures r.Success? <==> forall f :: Accepted(p, f)
    ensures r.Failure? ==> r.error != [] && forall f :: f in r.error <==> !Accepted(p, f)
    ensures r.Success? ==> Valid(r.value) && Encode(r.value) == p
  {
    var errors :=
      RejectedIf(!Accepted(p, SizeSqm), SizeSqm)
      + RejectedIf(!Accepted(p, YearBuilt), YearBuilt)
      + RejectedIf(!Accepted(p, Heating), Heating)
      + RejectedIf(!Accepted(p, Insulation), Insulation)
      + RejectedIf(!Accepted(p, Notes), Notes);
    if errors != [] then Failure(errors)
    else
      Success(HomeCreate(
        p.sizeSqm.value,
        p.yearBuilt,
        ParseHeatingType(p.heatingType.value).value,
        if p.insulation.Some? then Some(ParseInsulationLevel(p.insulation.value).value) else None,
        p.notes))
  }

  /** A record passes validation exactly when it is valid, and then comes
      back unchanged: validation is the inverse of encoding on valid records. */
  lemma ValidateEncoded(d: HomeCreate)
    ensures Validate(Encode(d)).Success? <==> Valid(d)
    ensures Valid(d) ==> Validate(Encode(d)) == Success(d)
  {
    HeatingTypeMembers(d.heatingType);
    if d.insulation.Some? {
      InsulationLevelMembers(d.insulation.value);
    }
  }

  /** `HomeResponse`: the id and every column of the row. */
  datatype HomeResponse = HomeResponse(
    id: int,
    sizeSqm: int,
    yearBuilt: Option<int>,
    heatingType: HeatingType,
    insulation: Option<InsulationLevel>,
    notes: Option<string>,
    createdAt: Timestamp,
    updatedAt: Option<Timestamp>)

  /** `HomeResponse.model_validate(home)`, reading the row's attributes. */
  function ToResponse(h: Home): HomeResponse
  {
    HomeResponse(h.id, h.sizeSqm, h.yearBuilt, h.heatingType, h.insulation, h.notes, h.createdAt, h.updatedAt)
  }

  /** A response carries the same profile as the creation record. */
  predicate Describes(r: HomeResponse, d: HomeCreate)
  {
    && r.sizeSqm == d.sizeSqm
    && r.yearBuilt == d.yearBuilt
    && r.heatingType == d.heatingType
    && r.insulation == d.insulation
    && r.notes == d.notes
  }
}
