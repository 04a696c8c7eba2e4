/** The risk editor: its field record, the derived level it displays, the
    handlers that change them, and the store call a submission makes. */
module RiskForm {
  import opened Types
  import opened Seqs
  import opened Text
  import opened Helpers
  import opened GRCContext

  /** The fields of a new form: likelihood and impact start at 1, no controls. */
  const EmptyForm := RiskDraft("", "", "", 1, 1, [])

  /** The fields loaded when editing a risk, with a copy of its control list. */
  function Loaded(r: Risk): RiskDraft {
    RiskDraft(r.name, r.description, r.category, r.likelihood, r.impact, r.controlIds)
  }

  /** `handleInputChange`: the named field takes the value, likelihood and impact through `Number()`.
      None when the name is not a field of the form or the number cannot be read. */
  function SetField(d: RiskDraft, name: string, value: string): (r: Option<RiskDraft>)
    ensures r.Some? ==> r.value.controlIds == d.controlIds
    ensures r.Some? && name != "likelihood" && name != "impact" ==>
      r.value.likelihood == d.likelihood && r.value.impact == d.impact
    ensures name in ["name", "description", "category"] ==> r.Some?
    ensures r.None? <==> (name !in ["name", "description", "category", "likelihood", "impact"]
                          || ((name == "likelihood" || name == "impact") && ToNumber(value).None?))
  {
    if name == "name" then Some(d.(name := value))
    else if name == "description" then Some(d.(description := value))
    else if name == "category" then Some(d.(category := value))
    else if name == "likelihood" || name == "impact" then
      match ToNumber(value)
      case None => None
      case Some(n) => if name == "likelihood" then Some(d.(likelihood := n)) else Some(d.(impact := n))
    else None
  }

  /** Choosing option n of the likelihood or impact select stores the number n; the text
      fields store the raw string. */
  lemma FieldsStoreTheirValues(d: RiskDraft, n: nat, text: string)
    ensures SetField(d, "likelihood", NatToDecimal(n)) == Some(d.(likelihood := n))
    ensures SetField(d, "impact", NatToDecimal(n)) == Some(d.(impact := n))
    ensures SetField(d, "name", text) == Some(d.(name := text))
    ensures SetField(d, "description", text) == Some(d.(description := text))
    ensures SetField(d, "category", text) == Some(d.(category := text))
  {
    NumberRoundTrip(n);
  }

  /** `handleControlToggle`: tick adds the control at the end, untick removes it. */
  function ToggleControl(d: RiskDraft, controlId: Id): (r: RiskDraft)
    ensures controlId in d.controlIds ==> controlId !in r.controlIds
    ensures controlId !in d.controlIds ==> r.controlIds == d.controlIds + [controlId]
    ensures r.(controlIds := d.controlIds) == d
  {
    d.(controlIds := Toggle(d.controlIds, controlId))
  }

  /** Ticking and unticking a control leaves the form as it was. */
  lemma ToggleTwiceRestores(d: RiskDraft, controlId: Id)
    requires controlId !in d.controlIds
    ensures ToggleControl(ToggleControl(d, controlId), controlId) == d
  {
    ToggleTwiceAbsent(d.controlIds, controlId);
  }

  /** The form record passed to `updateRisk`: every field present except id and level. */
  function AsPatch(d: RiskDraft): (p: RiskPatch)
    ensures p.id.None? && p.level.None? && p.likelihood.Some? && p.impact.Some?
  {
    RiskPatch(None, Some(d.name), Some(d.description), Some(d.category), Some(d.likelihood),
              Some(d.impact), None, Some(d.controlIds))
  }

  /** Submitting an edit form nobody touched leaves the store's risks unchanged. */
  lemma UntouchedEditChangesNothing(risks: seq<Risk>, r: Risk)
    requires LevelConsistent(r)
    requires forall j :: 0 <= j < |risks| && risks[j].id == r.id ==> risks[j] == r
    ensures UpdateRisks(risks, r.id, AsPatch(Loaded(r))) == risks
  {
  }

  /** The store call a submission makes: update when editing, add otherwise. */
  datatype SubmitAction = AddRiskCall(risk: RiskDraft) | UpdateRiskCall(id: Id, patch: RiskPatch)

  function Submit(editing: Option<Risk>, d: RiskDraft): (a: SubmitAction)
    ensures a.UpdateRiskCall? <==> editing.Some?
    ensures a.UpdateRiskCall? ==> a.id == editing.value.id && a.patch == AsPatch(d)
    ensures a.AddRiskCall? ==> a.risk == d
  {
    match editing
    case Some(r) => UpdateRiskCall(r.id, AsPatch(d))
    case None => AddRiskCall(d)
  }

  /** The risk list after the store performs a submission (`newId` is the id an add mints). */
  function Apply(risks: seq<Risk>, a: SubmitAction, newId: Id): seq<Risk> {
    match a
    case AddRiskCall(d) => risks + [NewRisk(d, newId)]
    case UpdateRiskCall(id, p) => UpdateRisks(risks, id, p)
  }

  /** Whatever the form holds, a submission keeps every stored level in step with its scores. */
  lemma SubmitKeepsLevels(risks: seq<Risk>, editing: Option<Risk>, d: RiskDraft, newId: Id)
    requires LevelsConsistent(risks)
    ensures LevelsConsistent(Apply(risks, Submit(editing, d), newId))
  {
    if editing.Some? {
      UpdateRisksKeepsLevels(risks, editing.value.id, AsPatch(d));
    }
  }

  /** The editor's state. `riskLevel` is the derived level shown beside the scores; the
      effects of the component keep it equal to the level of the current scores. */
  class RiskFormState {
    var editing: Option<Risk>
    var formData: RiskDraft
    var riskLevel: RiskLevel

    predicate LevelInSync()
      reads this
    {
      riskLevel == CalculateRiskLevel(formData.likelihood, formData.impact)
    }

    /** Mounting the form: defaults, then the load effect for an edited risk. */
    constructor (risk: Option<Risk>)
      ensures editing == risk
      ensures formData == (if risk.Some? then Loaded(risk.value) else EmptyForm)
      ensures riskLevel == (if risk.Some? then CalculateRiskLevel(risk.value.likelihood, risk.value.impact) else Low)
      ensures LevelInSync()
    {
      editing := risk;
      match risk
      case Some(r) =>
        formData := Loaded(r);
        riskLevel := CalculateRiskLevel(r.likelihood, r.impact);
      case None =>
        formData := EmptyForm;
        riskLevel := CalculateRiskLevel(1, 1);
    }

    /** A change event on a field, followed by the level effect. */
    method HandleInputChange(name: string, value: string) returns (accepted: bool)
      modifies this
      ensures accepted <==> SetField(old(formData), name, value).Some?
      ensures formData == (if accepted then SetField(old(formData), name, value).value else old(formData))
      ensures editing == old(editing)
      ensures old(LevelInSync()) ==> LevelInSync()
    {
      var next := SetField(formData, name, value);
      accepted := next.Some?;
      if accepted {
        formData := next.value;
        riskLevel := CalculateRiskLevel(formData.likelihood, formData.impact);
      }
    }

    method HandleControlToggle(controlId: Id)
      modifies this
      ensures formData == ToggleControl(old(formData), controlId)
      ensures editing == old(editing) && riskLevel == old(riskLevel)
      ensures old(LevelInSync()) ==> LevelInSync()
    {
      formData := ToggleControl(formData, controlId);
    }

    /** Submitting: `updateRisk` with the form record when editing, `addRisk` otherwise. */
    method HandleSubmit(store: Store, newId: Id)
      requires editing.None? ==> FreshRiskId(store.risks, newId)
      modifies store
      ensures store.risks == Apply(old(store.risks), Submit(editing, formData), newId)
      ensures LevelsConsistent(old(store.risks)) ==> LevelsConsistent(store.risks)
      ensures store.controls == old(store.controls) && store.riskFactors == old(store.riskFactors)
      ensures store.consequences == old(store.consequences)
      ensures store.bowTieRelationships == old(store.bowTieRelationships)
    {
      if LevelsConsistent(store.risks) {
        SubmitKeepsLevels(store.risks, editing, formData, newId);
      }
      match editing
      case Some(r) => store.UpdateRisk(r.id, AsPatch(formData));
      case None => store.AddRisk(formData, newId);
    }
  }
}
