/** The in-memory entity store of the GRC provider: five collections and
    the add / update / delete operations that keep their cross references.
    Each state setter of the provider is one transform below; the `Store`
    class applies them in the order the provider issues them. */
module GRCContext {
  import opened Types
  import opened Seqs
  import opened Helpers

  // ---------------------------------------------------------------------------
  // Risk transforms
  // ---------------------------------------------------------------------------

  /** A risk carries the level computed from its own likelihood and impact. */
  predicate LevelConsistent(r: Risk) {
    r.level == Some(CalculateRiskLevel(r.likelihood, r.impact))
  }

  predicate LevelsConsistent(risks: seq<Risk>) {
    forall j :: 0 <= j < |risks| ==> LevelConsistent(risks[j])
  }

  /** No risk has identifier `id`. */
  predicate FreshRiskId(risks: seq<Risk>, id: Id) {
    forall j :: 0 <= j < |risks| ==> risks[j].id != id
  }

  /** The initial risk list of the provider: each seed risk with its level computed. */
  function WithComputedLevels(seed: seq<Risk>): (r: seq<Risk>)
    ensures |r| == |seed| && LevelsConsistent(r)
    ensures forall j :: 0 <= j < |seed| ==> r[j].(level := seed[j].level) == seed[j]
  {
    seq(|seed|, j requires 0 <= j < |seed| =>
      seed[j].(level := Some(CalculateRiskLevel(seed[j].likelihood, seed[j].impact))))
  }

  /** The record `addRisk` appends. */
  function NewRisk(d: RiskDraft, id: Id): (r: Risk)
    ensures LevelConsistent(r) && r.id == id
  {
    Risk(id, d.name, d.description, d.category, d.likelihood, d.impact,
         Some(CalculateRiskLevel(d.likelihood, d.impact)), d.controlIds)
  }

  /** `{ ...r, ...patch }` followed by the level recomputation of `updateRisk`. */
  function PatchRisk(r: Risk, p: RiskPatch): (u: Risk)
    ensures p.likelihood.Some? || p.impact.Some? ==> LevelConsistent(u)
    ensures p.likelihood.None? && p.impact.None? ==> u.level == (if p.level.Some? then p.level else r.level)
  {
    var merged := Risk(Merge(p.id, r.id), Merge(p.name, r.name), Merge(p.description, r.description),
                       Merge(p.category, r.category), Merge(p.likelihood, r.likelihood),
                       Merge(p.impact, r.impact), if p.level.Some? then p.level else r.level,
                       Merge(p.controlIds, r.controlIds));
    if p.likelihood.Some? || p.impact.Some? then
      var likelihood := if p.likelihood.Some? then p.likelihood.value else r.likelihood;
      var impact := if p.impact.Some? then p.impact.value else r.impact;
      merged.(level := Some(CalculateRiskLevel(likelihood, impact)))
    else
      merged
  }

  function UpdateRisks(risks: seq<Risk>, id: Id, p: RiskPatch): seq<Risk> {
    seq(|risks|, j requires 0 <= j < |risks| => if risks[j].id == id then PatchRisk(risks[j], p) else risks[j])
  }

  function RemoveRisk(risks: seq<Risk>, id: Id): (r: seq<Risk>)
    ensures FreshRiskId(r, id)
    ensures forall x :: x in r <==> x in risks && x.id != id
    ensures IsSubsequence(r, risks)
  {
    var keep := (x: Risk) => x.id != id;
    var r := Filter(risks, keep);
    FilterIsSubsequence(risks, keep);
    assert forall j :: 0 <= j < |r| ==> r[j] in r;
    r
  }

  /** `updateRisk` keeps every level consistent unless the patch sets `level` by itself. */
  lemma UpdateRisksKeepsLevels(risks: seq<Risk>, id: Id, p: RiskPatch)
    requires LevelsConsistent(risks)
    requires p.level.None? || p.likelihood.Some? || p.impact.Some?
    ensures LevelsConsistent(UpdateRisks(risks, id, p))
  {
    forall j | 0 <= j < |risks| ensures LevelConsistent(UpdateRisks(risks, id, p)[j]) {
      assert LevelConsistent(risks[j]);
    }
  }

  /** A patch carrying `level` without likelihood or impact overrides the computed level. */
  lemma UpdateRisksCanDesyncLevel()
    ensures var r := Risk("1", "n", "d", "c", 1, 1, Some(Low), []);
            var p := RiskPatch(None, None, None, None, None, None, Some(Critical), None);
            LevelConsistent(r) && !LevelConsistent(UpdateRisks([r], "1", p)[0])
  {
  }

  /** Only risks with the matching id change, and applying the same patch twice changes nothing more. */
  lemma UpdateRisksSpec(risks: seq<Risk>, id: Id, p: RiskPatch)
    ensures |UpdateRisks(risks, id, p)| == |risks|
    ensures forall j :: 0 <= j < |risks| && risks[j].id != id ==> UpdateRisks(risks, id, p)[j] == risks[j]
    ensures forall j :: 0 <= j < |risks| && risks[j].id == id ==>
      var u := UpdateRisks(risks, id, p)[j];
      u.name == Merge(p.name, risks[j].name) && u.description == Merge(p.description, risks[j].description)
      && u.category == Merge(p.category, risks[j].category) && u.controlIds == Merge(p.controlIds, risks[j].controlIds)
      && u.likelihood == Merge(p.likelihood, risks[j].likelihood) && u.impact == Merge(p.impact, risks[j].impact)
      && u.id == Merge(p.id, id)
    ensures UpdateRisks(UpdateRisks(risks, id, p), id, p) == UpdateRisks(risks, id, p)
  {
  }

  // ---------------------------------------------------------------------------
  // Cross-reference scrubbing used by deleteRisk
  // ---------------------------------------------------------------------------

  // `deleteRisk` runs the same list edit, `riskIds.filter(x => x !== id)`, over three
  // collections of different record types; ScrubControls, ScrubFactors and
  // ScrubConsequences state it once per record type.

  /** `deleteRisk` on the controls: the risk id leaves every control's list, the other ids
      stay in their order, and nothing else in a control changes. */
  function ScrubControls(controls: seq<Control>, riskId: Id): (r: seq<Control>)
    ensures |r| == |controls|
    ensures forall j :: 0 <= j < |r| ==> riskId !in r[j].riskIds
    ensures forall j, y :: 0 <= j < |r| && y != riskId ==> (y in r[j].riskIds <==> y in controls[j].riskIds)
    ensures forall j :: 0 <= j < |r| ==> IsSubsequence(r[j].riskIds, controls[j].riskIds)
    ensures forall j :: 0 <= j < |r| ==> r[j].(riskIds := controls[j].riskIds) == controls[j]
  {
    assert forall j :: 0 <= j < |controls| ==> IsSubsequence(RemoveAll(controls[j].riskIds, riskId), controls[j].riskIds) by {
      forall j | 0 <= j < |controls| ensures IsSubsequence(RemoveAll(controls[j].riskIds, riskId), controls[j].riskIds) {
        RemoveAllIsSubsequence(controls[j].riskIds, riskId);
      }
    }
    seq(|controls|, j requires 0 <= j < |controls| =>
      controls[j].(riskIds := RemoveAll(controls[j].riskIds, riskId)))
  }

  /** `deleteRisk` on the risk factors: as ScrubControls. */
  function ScrubFactors(factors: seq<RiskFactor>, riskId: Id): (r: seq<RiskFactor>)
    ensures |r| == |factors|
    ensures forall j :: 0 <= j < |r| ==> riskId !in r[j].riskIds
    ensures forall j, y :: 0 <= j < |r| && y != riskId ==> (y in r[j].riskIds <==> y in factors[j].riskIds)
    ensures forall j :: 0 <= j < |r| ==> IsSubsequence(r[j].riskIds, factors[j].riskIds)
    ensures forall j :: 0 <= j < |r| ==> r[j].(riskIds := factors[j].riskIds) == factors[j]
  {
    assert forall j :: 0 <= j < |factors| ==> IsSubsequence(RemoveAll(factors[j].riskIds, riskId), factors[j].riskIds) by {
      forall j | 0 <= j < |factors| ensures IsSubsequence(RemoveAll(factors[j].riskIds, riskId), factors[j].riskIds) {
        RemoveAllIsSubsequence(factors[j].riskIds, riskId);
      }
    }
    seq(|factors|, j requires 0 <= j < |factors| =>
      factors[j].(riskIds := RemoveAll(factors[j].riskIds, riskId)))
  }

  /** `deleteRisk` on the consequences: as ScrubControls. */
  function ScrubConsequences(consequences: seq<Consequence>, riskId: Id): (r: seq<Consequence>)
    ensures |r| == |consequences|
    ensures forall j :: 0 <= j < |r| ==> riskId !in r[j].riskIds
    ensures forall j, y :: 0 <= j < |r| && y != riskId ==> (y in r[j].riskIds <==> y in consequences[j].riskIds)
    ensures forall j :: 0 <= j < |r| ==> IsSubsequence(r[j].riskIds, consequences[j].riskIds)
    ensures forall j :: 0 <= j < |r| ==> r[j].(riskIds := consequences[j].riskIds) == consequences[j]
  {
    assert forall j :: 0 <= j < |consequences| ==> IsSubsequence(RemoveAll(consequences[j].riskIds, riskId), consequences[j].riskIds) by {
      forall j | 0 <= j < |consequences| ensures IsSubsequence(RemoveAll(consequences[j].riskIds, riskId), consequences[j].riskIds) {
        RemoveAllIsSubsequence(consequences[j].riskIds, riskId);
      }
    }
    seq(|consequences|, j requires 0 <= j < |consequences| =>
      consequences[j].(riskIds := RemoveAll(consequences[j].riskIds, riskId)))
  }

  function RemoveBowTiesOfRisk(bowTies: seq<BowTieRelationship>, riskId: Id): (r: seq<BowTieRelationship>)
    ensures forall b :: b in r <==> b in bowTies && b.riskId != riskId
  {
    Filter(bowTies, (b: BowTieRelationship) => b.riskId != riskId)
  }

  // ---------------------------------------------------------------------------
  // Control transforms
  // ---------------------------------------------------------------------------

  predicate FreshControlId(controls: seq<Control>, id: Id) {
    forall j :: 0 <= j < |controls| ==> controls[j].id != id
  }

  function NewControl(d: ControlDraft, id: Id): Control {
    Control(id, d.name, d.description, d.controlType, d.status, d.effectiveness, d.riskIds)
  }

  function PatchControl(c: Control, p: ControlPatch): Control {
    Control(Merge(p.id, c.id), Merge(p.name, c.name), Merge(p.description, c.description),
            Merge(p.controlType, c.controlType), Merge(p.status, c.status),
            Merge(p.effectiveness, c.effectiveness), Merge(p.riskIds, c.riskIds))
  }

  function UpdateControls(controls: seq<Control>, id: Id, p: ControlPatch): seq<Control> {
    seq(|controls|, j requires 0 <= j < |controls| =>
      if controls[j].id == id then PatchControl(controls[j], p) else controls[j])
  }
  /** `updateControl`: only Control records with the matching id change; in those each field the patch
      carries overrides and each absent field keeps its value; applying the patch twice
      changes nothing more. */
  lemma UpdateControlsSpec(controls: seq<Control>, id: Id, p: ControlPatch)
    ensures |UpdateControls(controls, id, p)| == |controls|
    ensures forall j :: 0 <= j < |controls| && controls[j].id != id ==> UpdateControls(controls, id, p)[j] == controls[j]
    ensures forall j :: 0 <= j < |controls| && controls[j].id == id ==>
      var u := UpdateControls(controls, id, p)[j];
      u.name == Merge(p.name, controls[j].name)
      && u.description == Merge(p.description, controls[j].description)
      && u.controlType == Merge(p.controlType, controls[j].controlType)
      && u.status == Merge(p.status, controls[j].status)
      && u.effectiveness == Merge(p.effectiveness, controls[j].effectiveness)
      && u.riskIds == Merge(p.riskIds, controls[j].riskIds)
      && u.id == Merge(p.id, id)
    ensures UpdateControls(UpdateControls(controls, id, p), id, p) == UpdateControls(controls, id, p)
  {
  }


  function RemoveControl(controls: seq<Control>, id: Id): (r: seq<Control>)
    ensures FreshControlId(r, id)
    ensures forall x :: x in r <==> x in controls && x.id != id
    ensures IsSubsequence(r, controls)
  {
    var keep := (x: Control) => x.id != id;
    var r := Filter(controls, keep);
    FilterIsSubsequence(controls, keep);
    assert forall j :: 0 <= j < |r| ==> r[j] in r;
    r
  }

  /** One `setRisks` step of `addControl`: append the control id to the risks with id `riskId`. */
  function AppendControlId(risks: seq<Risk>, riskId: Id, controlId: Id): seq<Risk> {
    seq(|risks|, j requires 0 <= j < |risks| =>
      if risks[j].id == riskId then risks[j].(controlIds := risks[j].controlIds + [controlId]) else risks[j])
  }

  /** One `setRisks` step of `deleteControl`: strip the control id from the risks with id `riskId`. */
  function StripControlId(risks: seq<Risk>, riskId: Id, controlId: Id): seq<Risk> {
    seq(|risks|, j requires 0 <= j < |risks| =>
      if risks[j].id == riskId then risks[j].(controlIds := RemoveAll(risks[j].controlIds, controlId)) else risks[j])
  }

  /** The `forEach` of `addControl`: one append step per listed risk id, in order. */
  function LinkControl(risks: seq<Risk>, riskIds: seq<Id>, controlId: Id): seq<Risk> {
    if riskIds == [] then risks
    else AppendControlId(LinkControl(risks, riskIds[..|riskIds| - 1], controlId), riskIds[|riskIds| - 1], controlId)
  }

  /** The `forEach` of `deleteControl`: one strip step per risk id the control listed. */
  function UnlinkControl(risks: seq<Risk>, riskIds: seq<Id>, controlId: Id): seq<Risk> {
    if riskIds == [] then risks
    else StripControlId(UnlinkControl(risks, riskIds[..|riskIds| - 1], controlId), riskIds[|riskIds| - 1], controlId)
  }

  /** After `addControl`, a risk gains the new id once per occurrence of its id among the
      control's risk ids; risks not listed are unchanged. */
  lemma {:induction false} LinkControlSpec(risks: seq<Risk>, riskIds: seq<Id>, controlId: Id)
    ensures |LinkControl(risks, riskIds, controlId)| == |risks|
    ensures forall j :: 0 <= j < |risks| ==>
      LinkControl(risks, riskIds, controlId)[j]
        == risks[j].(controlIds := risks[j].controlIds + Repeat(controlId, Count(riskIds, risks[j].id)))
  {
    if riskIds != [] {
      var init, last := riskIds[..|riskIds| - 1], riskIds[|riskIds| - 1];
      LinkControlSpec(risks, init, controlId);
      assert riskIds == init + [last];
      forall j | 0 <= j < |risks|
        ensures LinkControl(risks, riskIds, controlId)[j]
          == risks[j].(controlIds := risks[j].controlIds + Repeat(controlId, Count(riskIds, risks[j].id)))
      {
        CountAppend(init, [last], risks[j].id);
        assert Count([last], risks[j].id) == if last == risks[j].id then 1 else 0;
        var n := Count(init, risks[j].id);
        if last == risks[j].id {
          RepeatAppend(controlId, n, 1);
          assert risks[j].controlIds + Repeat(controlId, n) + [controlId]
              == risks[j].controlIds + Repeat(controlId, n + 1);
        }
      }
    }
  }

  /** After `deleteControl`, exactly the risks listed by the control lose the control id. */
  lemma {:induction false} UnlinkControlSpec(risks: seq<Risk>, riskIds: seq<Id>, controlId: Id)
    ensures |UnlinkControl(risks, riskIds, controlId)| == |risks|
    ensures forall j :: 0 <= j < |risks| ==>
      UnlinkControl(risks, riskIds, controlId)[j]
        == if risks[j].id in riskIds then risks[j].(controlIds := RemoveAll(risks[j].controlIds, controlId))
           else risks[j]
  {
    if riskIds != [] {
      var init, last := riskIds[..|riskIds| - 1], riskIds[|riskIds| - 1];
      UnlinkControlSpec(risks, init, controlId);
      assert riskIds == init + [last];
      forall j | 0 <= j < |risks|
        ensures UnlinkControl(risks, riskIds, controlId)[j]
          == if risks[j].id in riskIds then risks[j].(controlIds := RemoveAll(risks[j].controlIds, controlId))
             else risks[j]
      {
        RemoveAllIdempotent(risks[j].controlIds, controlId);
      }
    }
  }

  /** The first `setRisks` of `updateControl`: risks listed in `removed` lose the control id. */
  function StripFromRisks(risks: seq<Risk>, removed: seq<Id>, controlId: Id): seq<Risk> {
    seq(|risks|, j requires 0 <= j < |risks| =>
      if risks[j].id in removed then risks[j].(controlIds := RemoveAll(risks[j].controlIds, controlId)) else risks[j])
  }

  /** The second `setRisks` of `updateControl`: risks listed in `added` gain the control id once. */
  function AddToRisks(risks: seq<Risk>, added: seq<Id>, controlId: Id): seq<Risk> {
    seq(|risks|, j requires 0 <= j < |risks| =>
      if risks[j].id in added then risks[j].(controlIds := risks[j].controlIds + [controlId]) else risks[j])
  }

  /** The risk ids that `updateControl` compares: the stored control's list and the patch's,
      both empty when the patch has no `riskIds` or no control has the id. */
  function OldAndNewRiskIds(controls: seq<Control>, id: Id, p: ControlPatch): (seq<Id>, seq<Id>) {
    if p.riskIds.None? then ([], [])
    else match FindIndex(controls, (c: Control) => c.id == id)
      case NotFound => ([], [])
      case FoundAt(k) => (controls[k].riskIds, p.riskIds.value)
  }

  function Removed(oldIds: seq<Id>, newIds: seq<Id>): (r: seq<Id>)
    ensures forall x :: x in r <==> x in oldIds && x !in newIds
  {
    Filter(oldIds, (x: Id) => x !in newIds)
  }

  function Added(oldIds: seq<Id>, newIds: seq<Id>): (r: seq<Id>)
    ensures forall x :: x in r <==> x in newIds && x !in oldIds
  {
    Filter(newIds, (x: Id) => x !in oldIds)
  }

  /** The risk list after `updateControl`, as a function of the state before it. */
  function UpdateControlRisks(risks: seq<Risk>, controls: seq<Control>, id: Id, p: ControlPatch): seq<Risk> {
    if p.riskIds.None? then risks
    else
      var (oldIds, newIds) := OldAndNewRiskIds(controls, id, p);
      var removed := Removed(oldIds, newIds);
      var afterRemoval := if |removed| > 0 then StripFromRisks(risks, removed, id) else risks;
      var added := Added(oldIds, newIds);
      if |added| > 0 then AddToRisks(afterRemoval, added, id) else afterRemoval
  }

  /** `updateControl` with new risk ids: risks dropped from the control lose its id, risks newly
      listed gain it at the end, all others are unchanged; with no such control nothing changes. */
  lemma UpdateControlRisksSpec(risks: seq<Risk>, controls: seq<Control>, id: Id, p: ControlPatch)
    ensures |UpdateControlRisks(risks, controls, id, p)| == |risks|
    ensures p.riskIds.None? || FreshControlId(controls, id) ==> UpdateControlRisks(risks, controls, id, p) == risks
    ensures p.riskIds.Some? && !FreshControlId(controls, id) ==>
      var (oldIds, newIds) := OldAndNewRiskIds(controls, id, p);
      oldIds == controls[FindIndex(controls, (c: Control) => c.id == id).index].riskIds
      && newIds == p.riskIds.value
      && forall j :: 0 <= j < |risks| ==>
        UpdateControlRisks(risks, controls, id, p)[j]
          == if risks[j].id in oldIds && risks[j].id !in newIds then
               risks[j].(controlIds := RemoveAll(risks[j].controlIds, id))
             else if risks[j].id in newIds && risks[j].id !in oldIds then
               risks[j].(controlIds := risks[j].controlIds + [id])
             else risks[j]
  {
    if p.riskIds.Some? {
      var (oldIds, newIds) := OldAndNewRiskIds(controls, id, p);
      var removed, added := Removed(oldIds, newIds), Added(oldIds, newIds);
      if FreshControlId(controls, id) {
        assert FindIndex(controls, (c: Control) => c.id == id).NotFound?;
        assert removed == [] && added == [];
      } else {
        assert FindIndex(controls, (c: Control) => c.id == id).FoundAt?;
        assert |removed| == 0 ==> forall x :: x !in removed;
        assert |added| == 0 ==> forall x :: x !in added;
      }
    }
  }

  // ---------------------------------------------------------------------------
  // Risk factor, consequence and bow-tie transforms
  // ---------------------------------------------------------------------------

  function NewFactor(d: FactorDraft, id: Id): RiskFactor {
    RiskFactor(id, d.name, d.description, d.riskIds)
  }

  function PatchFactor(f: RiskFactor, p: FactorPatch): RiskFactor {
    RiskFactor(Merge(p.id, f.id), Merge(p.name, f.name), Merge(p.description, f.description), Merge(p.riskIds, f.riskIds))
  }

  function UpdateFactors(factors: seq<RiskFactor>, id: Id, p: FactorPatch): seq<RiskFactor> {
    seq(|factors|, j requires 0 <= j < |factors| => if factors[j].id == id then PatchFactor(factors[j], p) else factors[j])
  }
  /** `updateRiskFactor`: only RiskFactor records with the matching id change; in those each field the patch
      carries overrides and each absent field keeps its value; applying the patch twice
      changes nothing more. */
  lemma UpdateFactorsSpec(factors: seq<RiskFactor>, id: Id, p: FactorPatch)
    ensures |UpdateFactors(factors, id, p)| == |factors|
    ensures forall j :: 0 <= j < |factors| && factors[j].id != id ==> UpdateFactors(factors, id, p)[j] == factors[j]
    ensures forall j :: 0 <= j < |factors| && factors[j].id == id ==>
      var u := UpdateFactors(factors, id, p)[j];
      u.name == Merge(p.name, factors[j].name)
      && u.description == Merge(p.description, factors[j].description)
      && u.riskIds == Merge(p.riskIds, factors[j].riskIds)
      && u.id == Merge(p.id, id)
    ensures UpdateFactors(UpdateFactors(factors, id, p), id, p) == UpdateFactors(factors, id, p)
  {
  }


  function RemoveFactor(factors: seq<RiskFactor>, id: Id): (r: seq<RiskFactor>)
    ensures forall x :: x in r <==> x in factors && x.id != id
    ensures IsSubsequence(r, factors)
  {
    var keep := (x: RiskFactor) => x.id != id;
    FilterIsSubsequence(factors, keep);
    Filter(factors, keep)
  }

  function NewConsequence(d: ConsequenceDraft, id: Id): Consequence {
    Consequence(id, d.name, d.description, d.riskIds)
  }

  function PatchConsequence(c: Consequence, p: ConsequencePatch): Consequence {
    Consequence(Merge(p.id, c.id), Merge(p.name, c.name), Merge(p.description, c.description), Merge(p.riskIds, c.riskIds))
  }

  function UpdateConsequences(consequences: seq<Consequence>, id: Id, p: ConsequencePatch): seq<Consequence> {
    seq(|consequences|, j requires 0 <= j < |consequences| =>
      if consequences[j].id == id then PatchConsequence(consequences[j], p) else consequences[j])
  }
  /** `updateConsequence`: only Consequence records with the matching id change; in those each field the patch
      carries overrides and each absent field keeps its value; applying the patch twice
      changes nothing more. */
  lemma UpdateConsequencesSpec(consequences: seq<Consequence>, id: Id, p: ConsequencePatch)
    ensures |UpdateConsequences(consequences, id, p)| == |consequences|
    ensures forall j :: 0 <= j < |consequences| && consequences[j].id != id ==> UpdateConsequences(consequences, id, p)[j] == consequences[j]
    ensures forall j :: 0 <= j < |consequences| && consequences[j].id == id ==>
      var u := UpdateConsequences(consequences, id, p)[j];
      u.name == Merge(p.name, consequences[j].name)
      && u.description == Merge(p.description, consequences[j].description)
      && u.riskIds == Merge(p.riskIds, consequences[j].riskIds)
      && u.id == Merge(p.id, id)
    ensures UpdateConsequences(UpdateConsequences(consequences, id, p), id, p) == UpdateConsequences(consequences, id, p)
  {
  }


  function RemoveConsequence(consequences: seq<Consequence>, id: Id): (r: seq<Consequence>)
    ensures forall x :: x in r <==> x in consequences && x.id != id
    ensures IsSubsequence(r, consequences)
  {
    var keep := (x: Consequence) => x.id != id;
    FilterIsSubsequence(consequences, keep);
    Filter(consequences, keep)
  }

  function NewBowTie(d: BowTieDraft, id: Id): BowTieRelationship {
    BowTieRelationship(id, d.riskId, d.factorIds, d.consequenceIds)
  }

  function PatchBowTie(b: BowTieRelationship, p: BowTiePatch): BowTieRelationship {
    BowTieRelationship(Merge(p.id, b.id), Merge(p.riskId, b.riskId), Merge(p.factorIds, b.factorIds),
                       Merge(p.consequenceIds, b.consequenceIds))
  }

  function UpdateBowTies(bowTies: seq<BowTieRelationship>, id: Id, p: BowTiePatch): seq<BowTieRelationship> {
    seq(|bowTies|, j requires 0 <= j < |bowTies| => if bowTies[j].id == id then PatchBowTie(bowTies[j], p) else bowTies[j])
  }
  /** `updateBowTieRelationship`: only BowTieRelationship records with the matching id change; in those each field the patch
      carries overrides and each absent field keeps its value; applying the patch twice
      changes nothing more. */
  lemma UpdateBowTiesSpec(bowTies: seq<BowTieRelationship>, id: Id, p: BowTiePatch)
    ensures |UpdateBowTies(bowTies, id, p)| == |bowTies|
    ensures forall j :: 0 <= j < |bowTies| && bowTies[j].id != id ==> UpdateBowTies(bowTies, id, p)[j] == bowTies[j]
    ensures forall j :: 0 <= j < |bowTies| && bowTies[j].id == id ==>
      var u := UpdateBowTies(bowTies, id, p)[j];
      u.riskId == Merge(p.riskId, bowTies[j].riskId)
      && u.factorIds == Merge(p.factorIds, bowTies[j].factorIds)
      && u.consequenceIds == Merge(p.consequenceIds, bowTies[j].consequenceIds)
      && u.id == Merge(p.id, id)
    ensures UpdateBowTies(UpdateBowTies(bowTies, id, p), id, p) == UpdateBowTies(bowTies, id, p)
  {
  }


  function RemoveBowTie(bowTies: seq<BowTieRelationship>, id: Id): (r: seq<BowTieRelationship>)
    ensures forall x :: x in r <==> x in bowTies && x.id != id
    ensures IsSubsequence(r, bowTies)
  {
    var keep := (x: BowTieRelationship) => x.id != id;
    FilterIsSubsequence(bowTies, keep);
    Filter(bowTies, keep)
  }

  /** `deleteRiskFactor` strips the factor id from every bow-tie and nothing else. */
  function ScrubFactorIds(bowTies: seq<BowTieRelationship>, factorId: Id): (r: seq<BowTieRelationship>)
    ensures |r| == |bowTies|
    ensures forall j :: 0 <= j < |r| ==> factorId !in r[j].factorIds
    ensures forall j, y :: 0 <= j < |r| && y != factorId ==> (y in r[j].factorIds <==> y in bowTies[j].factorIds)
    ensures forall j :: 0 <= j < |r| ==> IsSubsequence(r[j].factorIds, bowTies[j].factorIds)
    ensures forall j :: 0 <= j < |r| ==> r[j].(factorIds := bowTies[j].factorIds) == bowTies[j]
  {
    assert forall j :: 0 <= j < |bowTies| ==> IsSubsequence(RemoveAll(bowTies[j].factorIds, factorId), bowTies[j].factorIds) by {
      forall j | 0 <= j < |bowTies| ensures IsSubsequence(RemoveAll(bowTies[j].factorIds, factorId), bowTies[j].factorIds) {
        RemoveAllIsSubsequence(bowTies[j].factorIds, factorId);
      }
    }
    seq(|bowTies|, j requires 0 <= j < |bowTies| =>
      bowTies[j].(factorIds := RemoveAll(bowTies[j].factorIds, factorId)))
  }

  /** `deleteConsequence` strips the consequence id from every bow-tie and nothing else. */
  function ScrubConsequenceIds(bowTies: seq<BowTieRelationship>, consequenceId: Id): (r: seq<BowTieRelationship>)
    ensures |r| == |bowTies|
    ensures forall j :: 0 <= j < |r| ==> consequenceId !in r[j].consequenceIds
    ensures forall j, y :: 0 <= j < |r| && y != consequenceId ==> (y in r[j].consequenceIds <==> y in bowTies[j].consequenceIds)
    ensures forall j :: 0 <= j < |r| ==> IsSubsequence(r[j].consequenceIds, bowTies[j].consequenceIds)
    ensures forall j :: 0 <= j < |r| ==> r[j].(consequenceIds := bowTies[j].consequenceIds) == bowTies[j]
  {
    assert forall j :: 0 <= j < |bowTies| ==> IsSubsequence(RemoveAll(bowTies[j].consequenceIds, consequenceId), bowTies[j].consequenceIds) by {
      forall j | 0 <= j < |bowTies| ensures IsSubsequence(RemoveAll(bowTies[j].consequenceIds, consequenceId), bowTies[j].consequenceIds) {
        RemoveAllIsSubsequence(bowTies[j].consequenceIds, consequenceId);
      }
    }
    seq(|bowTies|, j requires 0 <= j < |bowTies| =>
      bowTies[j].(consequenceIds := RemoveAll(bowTies[j].consequenceIds, consequenceId)))
  }

  /** A patch with no field leaves every record as it was. */
  lemma EmptyPatchesChangeNothing(risks: seq<Risk>, controls: seq<Control>, factors: seq<RiskFactor>,
                                  consequences: seq<Consequence>, bowTies: seq<BowTieRelationship>, id: Id)
    ensures UpdateRisks(risks, id, RiskPatch(None, None, None, None, None, None, None, None)) == risks
    ensures UpdateControls(controls, id, ControlPatch(None, None, None, None, None, None, None)) == controls
    ensures UpdateFactors(factors, id, FactorPatch(None, None, None, None)) == factors
    ensures UpdateConsequences(consequences, id, ConsequencePatch(None, None, None, None)) == consequences
    ensures UpdateBowTies(bowTies, id, BowTiePatch(None, None, None, None)) == bowTies
  {
  }

  // ---------------------------------------------------------------------------
  // The Risk <-> Control relation
  // ---------------------------------------------------------------------------

  /** Every edge is recorded on both sides: the risk lists the control iff the control lists the risk. */
  predicate Symmetric(risks: seq<Risk>, controls: seq<Control>) {
    forall r, c :: r in risks && c in controls ==> (c.id in r.controlIds <==> r.id in c.riskIds)
  }

  /** `addRisk` records the risk's controls on the risk only, so it can break the relation. */
  lemma AddRiskCanBreakSymmetry()
    ensures var controls := [Control("c1", "n", "d", Preventive, Planned, 3, [])];
            var d := RiskDraft("n", "d", "c", 1, 1, ["c1"]);
            Symmetric([], controls) && !Symmetric([NewRisk(d, "r1")], controls)
  {
    var controls := [Control("c1", "n", "d", Preventive, Planned, 3, [])];
    var r := NewRisk(RiskDraft("n", "d", "c", 1, 1, ["c1"]), "r1");
    assert r in [r] && controls[0] in controls;
  }

  /** `updateRisk` with new control ids leaves the controls untouched, so it can break the relation. */
  lemma UpdateRiskCanBreakSymmetry()
    ensures var risks := [Risk("r1", "n", "d", "c", 1, 1, Some(Low), [])];
            var controls := [Control("c1", "n", "d", Preventive, Planned, 3, [])];
            var p := RiskPatch(None, None, None, None, None, None, None, Some(["c1"]));
            Symmetric(risks, controls) && !Symmetric(UpdateRisks(risks, "r1", p), controls)
  {
    var controls := [Control("c1", "n", "d", Preventive, Planned, 3, [])];
    var r := Risk("r1", "n", "d", "c", 1, 1, Some(Low), ["c1"]);
    var p := RiskPatch(None, None, None, None, None, None, None, Some(["c1"]));
    assert UpdateRisks([Risk("r1", "n", "d", "c", 1, 1, Some(Low), [])], "r1", p) == [r];
    assert r in [r] && controls[0] in controls;
  }

  /** The seed data already disagrees: risk '6' lists controls '1' and '2', and control '1'
      lists only risk '1'. Names, descriptions and scores play no part. */
  lemma SeedIsAsymmetric(risk6: Risk, control1: Control)
    requires risk6.id == "6" && risk6.controlIds == ["1", "2"]
    requires control1.id == "1" && control1.riskIds == ["1"]
    ensures !Symmetric([risk6], [control1])
  {
    assert risk6 in [risk6] && control1 in [control1];
    assert control1.id in risk6.controlIds && risk6.id !in control1.riskIds;
  }

  /** `addControl` keeps the relation when the new id is not already referenced by some risk. */
  lemma AddControlKeepsSymmetry(risks: seq<Risk>, controls: seq<Control>, d: ControlDraft, newId: Id)
    requires Symmetric(risks, controls)
    requires FreshControlId(controls, newId)
    requires forall r :: r in risks ==> newId !in r.controlIds
    ensures Symmetric(LinkControl(risks, d.riskIds, newId), controls + [NewControl(d, newId)])
  {
    var risks' := LinkControl(risks, d.riskIds, newId);
    var controls' := controls + [NewControl(d, newId)];
    LinkControlSpec(risks, d.riskIds, newId);
    forall r', c | r' in risks' && c in controls'
      ensures c.id in r'.controlIds <==> r'.id in c.riskIds
    {
      var j :| 0 <= j < |risks'| && risks'[j] == r';
      var r := risks[j];
      var extra := Repeat(newId, Count(d.riskIds, r.id));
      assert r'.controlIds == r.controlIds + extra && r'.id == r.id;
      assert r in risks;
      if c == NewControl(d, newId) {
        assert newId in r'.controlIds <==> newId in extra;
        assert newId in extra <==> Count(d.riskIds, r.id) > 0 by {
          if Count(d.riskIds, r.id) > 0 { assert extra[0] == newId; }
        }
      } else {
        assert c in controls;
        assert c.id != newId;
        assert c.id in r'.controlIds <==> c.id in r.controlIds;
      }
    }
  }

  /** `deleteControl` keeps the relation: only the deleted id is stripped. */
  lemma DeleteControlKeepsSymmetry(risks: seq<Risk>, controls: seq<Control>, id: Id, listed: seq<Id>)
    requires Symmetric(risks, controls)
    ensures Symmetric(UnlinkControl(risks, listed, id), RemoveControl(controls, id))
    ensures (exists c :: c in controls && c.id == id && c.riskIds == listed) ==>
      forall j :: 0 <= j < |UnlinkControl(risks, listed, id)| ==> id !in UnlinkControl(risks, listed, id)[j].controlIds
  {
    var risks' := UnlinkControl(risks, listed, id);
    var controls' := RemoveControl(controls, id);
    UnlinkControlSpec(risks, listed, id);
    forall r', c | r' in risks' && c in controls'
      ensures c.id in r'.controlIds <==> r'.id in c.riskIds
    {
      var j :| 0 <= j < |risks'| && risks'[j] == r';
      assert risks[j] in risks && c in controls && c.id != id;
    }
    if exists c :: c in controls && c.id == id && c.riskIds == listed {
      var c :| c in controls && c.id == id && c.riskIds == listed;
      forall j | 0 <= j < |risks| ensures id !in risks'[j].controlIds {
        assert risks[j] in risks;
      }
    }
  }

  /** `updateControl` keeps the relation when the patch leaves the control's id alone (the
      editor's patch carries no id): risks dropped from the control lose its id, risks newly
      listed gain it, and every other control and edge stays as it was. */
  lemma UpdateControlKeepsSymmetry(risks: seq<Risk>, controls: seq<Control>, id: Id, p: ControlPatch)
    requires Symmetric(risks, controls)
    requires p.id.None? || p.id == Some(id)
    ensures Symmetric(UpdateControlRisks(risks, controls, id, p), UpdateControls(controls, id, p))
  {
    var risks' := UpdateControlRisks(risks, controls, id, p);
    var controls' := UpdateControls(controls, id, p);
    UpdateControlRisksSpec(risks, controls, id, p);
    UpdateControlsSpec(controls, id, p);
    forall r', c' | r' in risks' && c' in controls'
      ensures c'.id in r'.controlIds <==> r'.id in c'.riskIds
    {
      var j :| 0 <= j < |risks'| && risks'[j] == r';
      var i :| 0 <= i < |controls'| && controls'[i] == c';
      var r, c := risks[j], controls[i];
      assert r in risks && c in controls;
      if p.riskIds.Some? && !FreshControlId(controls, id) {
        var k := FindIndex(controls, (x: Control) => x.id == id).index;
        assert controls[k] in controls && controls[k].id == id;
        assert r'.id == r.id;
        if c.id == id {
          assert c'.id == id && c'.riskIds == p.riskIds.value;
        } else {
          assert c' == c;
          assert c.id in r'.controlIds <==> c.id in r.controlIds;
        }
      } else {
        assert r' == r && c'.id == c.id && c'.riskIds == c.riskIds;
      }
    }
  }

  /** `deleteRisk` keeps the relation: the risk goes and its id leaves every control. */
  lemma DeleteRiskKeepsSymmetry(risks: seq<Risk>, controls: seq<Control>, id: Id)
    requires Symmetric(risks, controls)
    ensures Symmetric(RemoveRisk(risks, id), ScrubControls(controls, id))
  {
    var controls' := ScrubControls(controls, id);
    forall r, c' | r in RemoveRisk(risks, id) && c' in controls'
      ensures c'.id in r.controlIds <==> r.id in c'.riskIds
    {
      var j :| 0 <= j < |controls'| && controls'[j] == c';
      assert controls[j] in controls;
    }
  }

  // ---------------------------------------------------------------------------
  // The store
  // ---------------------------------------------------------------------------

  /** The provider's state and its operations. Identifiers minted by the source's
      random generator are parameters here, with a freshness precondition. */
  class Store {
    var risks: seq<Risk>
    var controls: seq<Control>
    var riskFactors: seq<RiskFactor>
    var consequences: seq<Consequence>
    var bowTieRelationships: seq<BowTieRelationship>

    /** The provider's initial state: the seed collections, each seed risk given its computed level. */
    constructor (initialRisks: seq<Risk>, initialControls: seq<Control>, initialRiskFactors: seq<RiskFactor>,
                 initialConsequences: seq<Consequence>, initialBowTieRelationships: seq<BowTieRelationship>)
      ensures risks == WithComputedLevels(initialRisks) && LevelsConsistent(risks)
      ensures controls == initialControls && riskFactors == initialRiskFactors
      ensures consequences == initialConsequences && bowTieRelationships == initialBowTieRelationships
    {
      risks := WithComputedLevels(initialRisks);
      controls := initialControls;
      riskFactors := initialRiskFactors;
      consequences := initialConsequences;
      bowTieRelationships := initialBowTieRelationships;
    }

    method AddRisk(risk: RiskDraft, newId: Id)
      requires FreshRiskId(risks, newId)
      modifies this
      ensures risks == old(risks) + [NewRisk(risk, newId)]
      ensures LevelsConsistent(old(risks)) ==> LevelsConsistent(risks)
      ensures controls == old(controls) && riskFactors == old(riskFactors)
      ensures consequences == old(consequences) && bowTieRelationships == old(bowTieRelationships)
    {
      risks := risks + [NewRisk(risk, newId)];
    }

    method UpdateRisk(id: Id, risk: RiskPatch)
      modifies this
      ensures risks == UpdateRisks(old(risks), id, risk)
      ensures risk.level.None? && LevelsConsistent(old(risks)) ==> LevelsConsistent(risks)
      ensures controls == old(controls) && riskFactors == old(riskFactors)
      ensures consequences == old(consequences) && bowTieRelationships == old(bowTieRelationships)
    {
      if risk.level.None? && LevelsConsistent(risks) {
        UpdateRisksKeepsLevels(risks, id, risk);
      }
      risks := UpdateRisks(risks, id, risk);
    }

    method DeleteRisk(id: Id)
      modifies this
      ensures risks == RemoveRisk(old(risks), id) && IsSubsequence(risks, old(risks))
      ensures controls == ScrubControls(old(controls), id)
      ensures riskFactors == ScrubFactors(old(riskFactors), id)
      ensures consequences == ScrubConsequences(old(consequences), id)
      ensures bowTieRelationships == RemoveBowTiesOfRisk(old(bowTieRelationships), id)
      ensures IsSubsequence(bowTieRelationships, old(bowTieRelationships))
      ensures FreshRiskId(risks, id)
      ensures forall b :: b in bowTieRelationships ==> b.riskId != id
    {
      FilterIsSubsequence(risks, (x: Risk) => x.id != id);
      FilterIsSubsequence(bowTieRelationships, (b: BowTieRelationship) => b.riskId != id);
      risks := RemoveRisk(risks, id);
      controls := ScrubControls(controls, id);
      riskFactors := ScrubFactors(riskFactors, id);
      consequences := ScrubConsequences(consequences, id);
      bowTieRelationships := RemoveBowTiesOfRisk(bowTieRelationships, id);
    }

    method AddControl(control: ControlDraft, newId: Id)
      requires FreshControlId(controls, newId)
      modifies this
      ensures controls == old(controls) + [NewControl(control, newId)]
      ensures risks == LinkControl(old(risks), control.riskIds, newId)
      ensures riskFactors == old(riskFactors) && consequences == old(consequences)
      ensures bowTieRelationships == old(bowTieRelationships)
    {
      controls := controls + [NewControl(control, newId)];
      var i := 0;
      while i < |control.riskIds|
        invariant 0 <= i <= |control.riskIds|
        invariant risks == LinkControl(old(risks), control.riskIds[..i], newId)
        invariant controls == old(controls) + [NewControl(control, newId)]
        invariant riskFactors == old(riskFactors) && consequences == old(consequences)
        invariant bowTieRelationships == old(bowTieRelationships)
      {
        assert control.riskIds[..i + 1][..i] == control.riskIds[..i];
        risks := AppendControlId(risks, control.riskIds[i], newId);
        i := i + 1;
      }
      assert control.riskIds[..i] == control.riskIds;
    }

    method UpdateControl(id: Id, control: ControlPatch)
      modifies this
      ensures controls == UpdateControls(old(controls), id, control)
      ensures risks == UpdateControlRisks(old(risks), old(controls), id, control)
      ensures riskFactors == old(riskFactors) && consequences == old(consequences)
      ensures bowTieRelationships == old(bowTieRelationships)
    {
      var oldRiskIds: seq<Id> := [];
      var newRiskIds: seq<Id> := [];
      if control.riskIds.Some? {
        match FindIndex(controls, (c: Control) => c.id == id)
        case FoundAt(k) =>
          oldRiskIds := controls[k].riskIds;
          newRiskIds := control.riskIds.value;
        case NotFound =>
      }
      assert (oldRiskIds, newRiskIds) == OldAndNewRiskIds(controls, id, control);
      ghost var before := risks;
      ghost var controlsBefore := controls;
      controls := UpdateControls(controls, id, control);
      if control.riskIds.Some? {
        var removedRiskIds := Removed(oldRiskIds, newRiskIds);
        if |removedRiskIds| > 0 {
          risks := StripFromRisks(risks, removedRiskIds, id);
        }
        var addedRiskIds := Added(oldRiskIds, newRiskIds);
        if |addedRiskIds| > 0 {
          risks := AddToRisks(risks, addedRiskIds, id);
        }
      }
      assert risks == UpdateControlRisks(before, controlsBefore, id, control);
    }

    method DeleteControl(id: Id)
      modifies this
      ensures controls == RemoveControl(old(controls), id)
      ensures FindIndex(old(controls), (c: Control) => c.id == id).NotFound? ==> risks == old(risks)
      ensures FindIndex(old(controls), (c: Control) => c.id == id).FoundAt? ==>
        risks == UnlinkControl(old(risks), old(controls)[FindIndex(old(controls), (c: Control) => c.id == id).index].riskIds, id)
      ensures riskFactors == old(riskFactors) && consequences == old(consequences)
      ensures bowTieRelationships == old(bowTieRelationships)
    {
      var found := FindIndex(controls, (c: Control) => c.id == id);
      var controlToDelete: Option<Control> := None;
      if found.FoundAt? {
        controlToDelete := Some(controls[found.index]);
      }
      controls := RemoveControl(controls, id);
      if controlToDelete.Some? {
        var riskIds := controlToDelete.value.riskIds;
        var i := 0;
        while i < |riskIds|
          invariant 0 <= i <= |riskIds|
          invariant risks == UnlinkControl(old(risks), riskIds[..i], id)
          invariant controls == RemoveControl(old(controls), id)
          invariant riskFactors == old(riskFactors) && consequences == old(consequences)
          invariant bowTieRelationships == old(bowTieRelationships)
        {
          assert riskIds[..i + 1][..i] == riskIds[..i];
          risks := StripControlId(risks, riskIds[i], id);
          i := i + 1;
        }
        assert riskIds[..i] == riskIds;
      }
    }

    method AddRiskFactor(factor: FactorDraft, newId: Id)
      requires forall j :: 0 <= j < |riskFactors| ==> riskFactors[j].id != newId
      modifies this
      ensures riskFactors == old(riskFactors) + [NewFactor(factor, newId)]
      ensures risks == old(risks) && controls == old(controls)
      ensures consequences == old(consequences) && bowTieRelationships == old(bowTieRelationships)
    {
      riskFactors := riskFactors + [NewFactor(factor, newId)];
    }

    method UpdateRiskFactor(id: Id, factor: FactorPatch)
      modifies this
      ensures riskFactors == UpdateFactors(old(riskFactors), id, factor)
      ensures risks == old(risks) && controls == old(controls)
      ensures consequences == old(consequences) && bowTieRelationships == old(bowTieRelationships)
    {
      riskFactors := UpdateFactors(riskFactors, id, factor);
    }

    method DeleteRiskFactor(id: Id)
      modifies this
      ensures riskFactors == RemoveFactor(old(riskFactors), id)
      ensures bowTieRelationships == ScrubFactorIds(old(bowTieRelationships), id)
      ensures forall b :: b in bowTieRelationships ==> id !in b.factorIds
      ensures risks == old(risks) && controls == old(controls) && consequences == old(consequences)
    {
      riskFactors := RemoveFactor(riskFactors, id);
      bowTieRelationships := ScrubFactorIds(bowTieRelationships, id);
    }

    method AddConsequence(consequence: ConsequenceDraft, newId: Id)
      requires forall j :: 0 <= j < |consequences| ==> consequences[j].id != newId
      modifies this
      ensures consequences == old(consequences) + [NewConsequence(consequence, newId)]
      ensures risks == old(risks) && controls == old(controls)
      ensures riskFactors == old(riskFactors) && bowTieRelationships == old(bowTieRelationships)
    {
      consequences := consequences + [NewConsequence(consequence, newId)];
    }

    method UpdateConsequence(id: Id, consequence: ConsequencePatch)
      modifies this
      ensures consequences == UpdateConsequences(old(consequences), id, consequence)
      ensures risks == old(risks) && controls == old(controls)
      ensures riskFactors == old(riskFactors) && bowTieRelationships == old(bowTieRelationships)
    {
      consequences := UpdateConsequences(consequences, id, consequence);
    }

    method DeleteConsequence(id: Id)
      modifies this
      ensures consequences == RemoveConsequence(old(consequences), id)
      ensures bowTieRelationships == ScrubConsequenceIds(old(bowTieRelationships), id)
      ensures forall b :: b in bowTieRelationships ==> id !in b.consequenceIds
      ensures risks == old(risks) && controls == old(controls) && riskFactors == old(riskFactors)
    {
      consequences := RemoveConsequence(consequences, id);
      bowTieRelationships := ScrubConsequenceIds(bowTieRelationships, id);
    }

    method AddBowTieRelationship(relation: BowTieDraft, newId: Id)
      requires forall j :: 0 <= j < |bowTieRelationships| ==> bowTieRelationships[j].id != newId
      modifies this
      ensures bowTieRelationships == old(bowTieRelationships) + [NewBowTie(relation, newId)]
      ensures risks == old(risks) && controls == old(controls)
      ensures riskFactors == old(riskFactors) && consequences == old(consequences)
    {
      bowTieRelationships := bowTieRelationships + [NewBowTie(relation, newId)];
    }

    method UpdateBowTieRelationship(id: Id, relation: BowTiePatch)
      modifies this
      ensures bowTieRelationships == UpdateBowTies(old(bowTieRelationships), id, relation)
      ensures risks == old(risks) && controls == old(controls)
      ensures riskFactors == old(riskFactors) && consequences == old(consequences)
    {
      bowTieRelationships := UpdateBowTies(bowTieRelationships, id, relation);
    }

    method DeleteBowTieRelationship(id: Id)
      modifies this
      ensures bowTieRelationships == RemoveBowTie(old(bowTieRelationships), id)
      ensures risks == old(risks) && controls == old(controls)
      ensures riskFactors == old(riskFactors) && consequences == old(consequences)
    {
      bowTieRelationships := RemoveBowTie(bowTieRelationships, id);
    }
  }
}
