/** The record shapes of the GRC tool: risks, controls, bow-tie factors,
    consequences and bow-tie relationships, with the enumerations they use. */
module Types {

  /** Identifiers are opaque strings. */
  type Id = string

  datatype Option<T> = None | Some(value: T)

  datatype RiskLevel = Low | Medium | High | Critical

  datatype ControlType = Preventive | Detective | Corrective | Directive

  datatype ControlStatus = Implemented | Partial | Planned | NotImplemented

  /** `level` is optional in the record type; the store always fills it in. */
  datatype Risk = Risk(
    id: Id,
    name: string,
    description: string,
    category: string,
    likelihood: int,
    impact: int,
    level: Option<RiskLevel>,
    controlIds: seq<Id>)

  datatype Control = Control(
    id: Id,
    name: string,
    description: string,
    controlType: ControlType,
    status: ControlStatus,
    effectiveness: int,
    riskIds: seq<Id>)

  datatype RiskFactor = RiskFactor(id: Id, name: string, description: string, riskIds: seq<Id>)

  datatype Consequence = Consequence(id: Id, name: string, description: string, riskIds: seq<Id>)

  datatype BowTieRelationship = BowTieRelationship(
    id: Id,
    riskId: Id,
    factorIds: seq<Id>,
    consequenceIds: seq<Id>)

  /** What the add operations receive: a record without its id (and, for a risk, without its level). */
  datatype RiskDraft = RiskDraft(
    name: string,
    description: string,
    category: string,
    likelihood: int,
    impact: int,
    controlIds: seq<Id>)

  datatype ControlDraft = ControlDraft(
    name: string,
    description: string,
    controlType: ControlType,
    status: ControlStatus,
    effectiveness: int,
    riskIds: seq<Id>)

  datatype FactorDraft = FactorDraft(name: string, description: string, riskIds: seq<Id>)

  datatype ConsequenceDraft = ConsequenceDraft(name: string, description: string, riskIds: seq<Id>)

  datatype BowTieDraft = BowTieDraft(riskId: Id, factorIds: seq<Id>, consequenceIds: seq<Id>)

  /** What the update operations receive: every field optional; None means the key is absent. */
  datatype RiskPatch = RiskPatch(
    id: Option<Id>,
    name: Option<string>,
    description: Option<string>,
    category: Option<string>,
    likelihood: Option<int>,
    impact: Option<int>,
    level: Option<RiskLevel>,
    controlIds: Option<seq<Id>>)

  datatype ControlPatch = ControlPatch(
    id: Option<Id>,
    name: Option<string>,
    description: Option<string>,
    controlType: Option<ControlType>,
    status: Option<ControlStatus>,
    effectiveness: Option<int>,
    riskIds: Option<seq<Id>>)

  datatype FactorPatch = FactorPatch(
    id: Option<Id>,
    name: Option<string>,
    description: Option<string>,
    riskIds: Option<seq<Id>>)

  datatype ConsequencePatch = ConsequencePatch(
    id: Option<Id>,
    name: Option<string>,
    description: Option<string>,
    riskIds: Option<seq<Id>>)

  datatype BowTiePatch = BowTiePatch(
    id: Option<Id>,
    riskId: Option<Id>,
    factorIds: Option<seq<Id>>,
    consequenceIds: Option<seq<Id>>)

  /** A field of a patch overrides the old value when present. */
  function Merge<T>(patch: Option<T>, current: T): T {
    match patch
    case Some(v) => v
    case None => current
  }

  /** The string literals the source uses for each enumeration value. */
  function LevelName(l: RiskLevel): string {
    match l
    case Low => "Low"
    case Medium => "Medium"
    case High => "High"
    case Critical => "Critical"
  }

  function TypeName(t: ControlType): string {
    match t
    case Preventive => "Preventive"
    case Detective => "Detective"
    case Corrective => "Corrective"
    case Directive => "Directive"
  }

  function StatusName(s: ControlStatus): string {
    match s
    case Implemented => "Implemented"
    case Partial => "Partial"
    case Planned => "Planned"
    case NotImplemented => "Not Implemented"
  }

  /** The inverse of TypeName: what a `<select>` value means as a control type. */
  function ParseControlType(s: string): (r: Option<ControlType>)
    ensures r.None? ==> forall t :: TypeName(t) != s
    ensures r.Some? ==> TypeName(r.value) == s
  {
    if s == "Preventive" then Some(Preventive)
    else if s == "Detective" then Some(Detective)
    else if s == "Corrective" then Some(Corrective)
    else if s == "Directive" then Some(Directive)
    else None
  }

  /** The inverse of StatusName. */
  function ParseControlStatus(s: string): (r: Option<ControlStatus>)
    ensures r.None? ==> forall st :: StatusName(st) != s
    ensures r.Some? ==> StatusName(r.value) == s
  {
    if s == "Implemented" then Some(Implemented)
    else if s == "Partial" then Some(Partial)
    else if s == "Planned" then Some(Planned)
    else if s == "Not Implemented" then Some(NotImplemented)
    else None
  }

  /** No enumeration name is empty, so a non-empty filter is needed to select by it. */
  lemma NamesNonEmpty(l: RiskLevel, t: ControlType, s: ControlStatus)
    ensures LevelName(l) != "" && TypeName(t) != "" && StatusName(s) != ""
  {
  }

  /** Each enumeration's names are pairwise distinct, so matching by name is matching by value. */
  lemma NamesInjective(l1: RiskLevel, l2: RiskLevel, t1: ControlType, t2: ControlType,
                       s1: ControlStatus, s2: ControlStatus)
    ensures LevelName(l1) == LevelName(l2) ==> l1 == l2
    ensures TypeName(t1) == TypeName(t2) ==> t1 == t2
    ensures StatusName(s1) == StatusName(s2) ==> s1 == s2
  {
  }

  /** Round trips between names and values. */
  lemma ParseNameRoundTrip(t: ControlType, s: ControlStatus)
    ensures ParseControlType(TypeName(t)) == Some(t)
    ensures ParseControlStatus(StatusName(s)) == Some(s)
  {
  }
}
