/** The persisted entity: the `homes` table row and its two enumerations. */
module Models {
  import opened Wrappers

  /** The heating system of a home. The constructors carry the names of the
      enumeration members; each member's value is its own name. */
  datatype HeatingType = GAS | OIL | ELECTRIC | HEAT_PUMP | DISTRICT

  /** The insulation level of a home, named as the enumeration members are. */
  datatype InsulationLevel = NONE | PARTIAL | GOOD | EXCELLENT

  /** The members of HeatingType in declaration order. */
  const HeatingTypes: seq<HeatingType> := [GAS, OIL, ELECTRIC, HEAT_PUMP, DISTRICT]

  /** The members of InsulationLevel in declaration order. */
  const InsulationLevels: seq<InsulationLevel> := [NONE, PARTIAL, GOOD, EXCELLENT]

  /** `heating_type.value`, the string stored and exchanged for the member. */
  function HeatingTypeValue(h: HeatingType): string
  {
    match h
    case GAS => "GAS"
    case OIL => "OIL"
    case ELECTRIC => "ELECTRIC"
    case HEAT_PUMP => "HEAT_PUMP"
    case DISTRICT => "DISTRICT"
  }

  /** `insulation.value`. */
  function InsulationValue(l: InsulationLevel): string
  {
    match l
    case NONE => "NONE"
    case PARTIAL => "PARTIAL"
    case GOOD => "GOOD"
    case EXCELLENT => "EXCELLENT"
  }

  /** `HeatingType(s)`: the member whose value is `s`, if any. */
  function ParseHeatingType(s: string): (r: Option<HeatingType>)
    ensures r.Some? ==> HeatingTypeValue(r.value) == s
    ensures r.None? ==> forall h :: HeatingTypeValue(h) != s
  {
    if s == "GAS" then Some(GAS)
    else if s == "OIL" then Some(OIL)
    else if s == "ELECTRIC" then Some(ELECTRIC)
    else if s == "HEAT_PUMP" then Some(HEAT_PUMP)
    else if s == "DISTRICT" then Some(DISTRICT)
    else None
  }

  /** `InsulationLevel(s)`: the member whose value is `s`, if any. */
  function ParseInsulationLevel(s: string): (r: Option<InsulationLevel>)
    ensures r.Some? ==> InsulationValue(r.value) == s
    ensures r.None? ==> forall l :: InsulationValue(l) != s
  {
    if s == "NONE" then Some(NONE)
    else if s == "PARTIAL" then Some(PARTIAL)
    else if s == "GOOD" then Some(GOOD)
    else if s == "EXCELLENT" then Some(EXCELLENT)
    else None
  }

  /** HeatingType has exactly five members, listed once each, with distinct
      values, and parsing a member's value gives that member back. */
  lemma HeatingTypeMembers(h: HeatingType)
    ensures h in HeatingTypes && |HeatingTypes| == 5
    ensures forall i, j :: 0 <= i < j < |HeatingTypes| ==>
      HeatingTypeValue(HeatingTypes[i]) != HeatingTypeValue(HeatingTypes[j])
    ensures ParseHeatingType(HeatingTypeValue(h)) == Some(h)
  {
  }

  /** InsulationLevel has exactly four members, with distinct values, and
      parsing a member's value gives that member back. */
  lemma InsulationLevelMembers(l: InsulationLevel)
    ensures l in InsulationLevels && |InsulationLevels| == 4
    ensures forall i, j :: 0 <= i < j < |InsulationLevels| ==>
      InsulationValue(InsulationLevels[i]) != InsulationValue(InsulationLevels[j])
    ensures ParseInsulationLevel(InsulationValue(l)) == Some(l)
  {
  }

  /** An opaque server clock reading (`func.now()`). */
  type Timestamp = nat

  /** A row of the `homes` table. `id` is the primary key; `sizeSqm` and
      `heatingType` are NOT NULL columns, the `Option` fields are nullable.
      `createdAt` is filled by the server default at insertion; `updatedAt`
      is set only by an update, which nothing in the system performs. */
  datatype Home = Home(
    id: int,
    sizeSqm: int,
    yearBuilt: Option<int>,
    heatingType: HeatingType,
    insulation: Option<InsulationLevel>,
    notes: Option<string>,
    createdAt: Timestamp,
    updatedAt: Option<Timestamp>)
}
