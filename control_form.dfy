/** The control editor: its field record, the handlers that change it and the
    store call a submission makes. */
module ControlForm {
  import opened Types
  import opened Seqs
  import opened Text
  import opened GRCContext

  /** The fields of a new form: a planned preventive control of effectiveness 3, no risks. */
  const EmptyForm := ControlDraft("", "", Preventive, Planned, 3, [])

  /** The fields loaded when editing a control, with a copy of its risk list. */
  function Loaded(c: Control): ControlDraft {
    ControlDraft(c.name, c.description, c.controlType, c.status, c.effectiveness, c.riskIds)
  }

  /** `handleInputChange`: the named field takes the value; `type` and `status` hold one of their
      option literals, `effectiveness` goes through `Number()`. None when the name is not a field,
      or the value is not one the field can hold. */
  function SetField(d: ControlDraft, name: string, value: string): (r: Option<ControlDraft>)
    ensures r.Some? ==> r.value.riskIds == d.riskIds
    ensures r.Some? && name != "effectiveness" ==> r.value.effectiveness == d.effectiveness
    ensures name == "type" ==> (r.Some? <==> ParseControlType(value).Some?)
    ensures name == "status" ==> (r.Some? <==> ParseControlStatus(value).Some?)
    ensures name == "effectiveness" ==> (r.Some? <==> ToNumber(value).Some?)
    ensures r.Some? && name == "type" ==> TypeName(r.value.controlType) == value
    ensures r.Some? && name == "status" ==> StatusName(r.value.status) == value
    ensures name !in ["name", "description", "type", "status", "effectiveness"] ==> r.None?
    ensures name in ["name", "description"] ==> r.Some?
    ensures r.Some? && name != "name" ==> r.value.name == d.name
    ensures r.Some? && name != "description" ==> r.value.description == d.description
    ensures r.Some? && name != "type" ==> r.value.controlType == d.controlType
    ensures r.Some? && name != "status" ==> r.value.status == d.status
  {
    if name == "name" then Some(d.(name := value))
    else if name == "description" then Some(d.(description := value))
    else if name == "type" then
      match ParseControlType(value)
      case None => None
      case Some(t) => Some(d.(controlType := t))
    else if name == "status" then
      match ParseControlStatus(value)
      case None => None
      case Some(s) => Some(d.(status := s))
    else if name == "effectiveness" then
      match ToNumber(value)
      case None => None
      case Some(n) => Some(d.(effectiveness := n))
    else None
  }

  /** Every option of the type and status selects, and every step of the effectiveness range,
      stores the value it shows; the text fields store the raw string. */
  lemma OptionsStoreTheirValues(d: ControlDraft, t: ControlType, s: ControlStatus, n: nat, text: string)
    ensures SetField(d, "name", text) == Some(d.(name := text))
    ensures SetField(d, "description", text) == Some(d.(description := text))
    ensures SetField(d, "type", TypeName(t)) == Some(d.(controlType := t))
    ensures SetField(d, "status", StatusName(s)) == Some(d.(status := s))
    ensures SetField(d, "effectiveness", NatToDecimal(n)) == Some(d.(effectiveness := n))
  {
    ParseNameRoundTrip(t, s);
    NumberRoundTrip(n);
  }

  /** `handleRiskToggle`: tick adds the risk at the end, untick removes it. */
  function ToggleRisk(d: ControlDraft, riskId: Id): (r: ControlDraft)
    ensures riskId in d.riskIds ==> riskId !in r.riskIds
    ensures riskId !in d.riskIds ==> r.riskIds == d.riskIds + [riskId]
    ensures r.(riskIds := d.riskIds) == d
  {
    d.(riskIds := Toggle(d.riskIds, riskId))
  }

  lemma ToggleTwiceRestores(d: ControlDraft, riskId: Id)
    requires riskId !in d.riskIds
    ensures ToggleRisk(ToggleRisk(d, riskId), riskId) == d
  {
    ToggleTwiceAbsent(d.riskIds, riskId);
  }

  /** The form record passed to `updateControl`: every field present except the id. */
  function AsPatch(d: ControlDraft): (p: ControlPatch)
    ensures p.id.None? && p.riskIds == Some(d.riskIds)
  {
    ControlPatch(None, Some(d.name), Some(d.description), Some(d.controlType), Some(d.status),
                 Some(d.effectiveness), Some(d.riskIds))
  }

  /** Submitting an edit form nobody touched leaves the controls and the risks unchanged. */
  lemma UntouchedEditChangesNothing(risks: seq<Risk>, controls: seq<Control>, c: Control)
    requires forall j :: 0 <= j < |controls| && controls[j].id == c.id ==> controls[j] == c
    ensures UpdateControls(controls, c.id, AsPatch(Loaded(c))) == controls
    ensures UpdateControlRisks(risks, controls, c.id, AsPatch(Loaded(c))) == risks
  {
    UpdateControlRisksSpec(risks, controls, c.id, AsPatch(Loaded(c)));
  }

  datatype SubmitAction = AddControlCall(control: ControlDraft) | UpdateControlCall(id: Id, patch: ControlPatch)

  function Submit(editing: Option<Control>, d: ControlDraft): (a: SubmitAction)
    ensures a.UpdateControlCall? <==> editing.Some?
    ensures a.UpdateControlCall? ==> a.id == editing.value.id && a.patch == AsPatch(d)
    ensures a.AddControlCall? ==> a.control == d
  {
    match editing
    case Some(c) => UpdateControlCall(c.id, AsPatch(d))
    case None => AddControlCall(d)
  }

  /** The editor's state. */
  class ControlFormState {
    var editing: Option<Control>
    var formData: ControlDraft

    /** Mounting the form: defaults, then the load effect for an edited control. */
    constructor (control: Option<Control>)
      ensures editing == control
      ensures formData == (if control.Some? then Loaded(control.value) else EmptyForm)
    {
      editing := control;
      formData := if control.Some? then Loaded(control.value) else EmptyForm;
    }

    method HandleInputChange(name: string, value: string) returns (accepted: bool)
      modifies this
      ensures accepted <==> SetField(old(formData), name, value).Some?
      ensures formData == (if accepted then SetField(old(formData), name, value).value else old(formData))
      ensures editing == old(editing)
    {
      var next := SetField(formData, name, value);
      accepted := next.Some?;
      if accepted {
        formData := next.value;
      }
    }

    method HandleRiskToggle(riskId: Id)
      modifies this
      ensures formData == ToggleRisk(old(formData), riskId)
      ensures editing == old(editing)
    {
      formData := ToggleRisk(formData, riskId);
    }

    /** Submitting: `updateControl` with the form record when editing, `addControl` otherwise. */
    method HandleSubmit(store: Store, newId: Id)
      requires editing.None? ==> FreshControlId(store.controls, newId)
      modifies store
      ensures editing.None? ==>
        store.controls == old(store.controls) + [NewControl(formData, newId)]
        && store.risks == LinkControl(old(store.risks), formData.riskIds, newId)
      ensures editing.Some? ==>
        store.controls == UpdateControls(old(store.controls), editing.value.id, AsPatch(formData))
        && store.risks == UpdateControlRisks(old(store.risks), old(store.controls), editing.value.id, AsPatch(formData))
      ensures store.riskFactors == old(store.riskFactors) && store.consequences == old(store.consequences)
      ensures store.bowTieRelationships == old(store.bowTieRelationships)
    {
      match editing
      case Some(c) => store.UpdateControl(c.id, AsPatch(formData));
      case None => store.AddControl(formData, newId);
    }
  }
}
