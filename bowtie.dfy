/** The bow-tie chart: the selected risk in the centre, its causes (risk factors)
    on the left, its consequences on the right, and the hover highlighting that
    links a card to the cards related to it. */
module BowTie {
  import opened Types
  import opened Seqs

  function RiskHasId(id: Id): Risk -> bool {
    (r: Risk) => r.id == id
  }

  function FactorHasId(id: Id): RiskFactor -> bool {
    (f: RiskFactor) => f.id == id
  }

  function ConsequenceHasId(id: Id): Consequence -> bool {
    (c: Consequence) => c.id == id
  }

  function BowTieOfRisk(riskId: Id): BowTieRelationship -> bool {
    (b: BowTieRelationship) => b.riskId == riskId
  }

  /** What the chart renders for a risk id: a prompt when no risk has that id, a notice
      when the risk has no bow-tie, or the analysis. */
  datatype View =
    | NoRiskSelected
    | NoAnalysis(risk: Risk)
    | Analysis(risk: Risk, relationship: BowTieRelationship,
               factors: seq<RiskFactor>, consequences: seq<Consequence>)

  /** `factorsForRisk`: the factors the relationship lists, in the order of the factor collection. */
  function FactorsForRisk(riskFactors: seq<RiskFactor>, b: BowTieRelationship): (r: seq<RiskFactor>)
    ensures IsSubsequence(r, riskFactors) && |r| <= |riskFactors|
    ensures forall f :: f in r <==> f in riskFactors && f.id in b.factorIds
  {
    FilterIsSubsequence(riskFactors, (f: RiskFactor) => f.id in b.factorIds);
    Filter(riskFactors, (f: RiskFactor) => f.id in b.factorIds)
  }

  /** `consequencesForRisk`: the consequences the relationship lists, in collection order. */
  function ConsequencesForRisk(consequences: seq<Consequence>, b: BowTieRelationship): (r: seq<Consequence>)
    ensures IsSubsequence(r, consequences) && |r| <= |consequences|
    ensures forall c :: c in r <==> c in consequences && c.id in b.consequenceIds
  {
    FilterIsSubsequence(consequences, (c: Consequence) => c.id in b.consequenceIds);
    Filter(consequences, (c: Consequence) => c.id in b.consequenceIds)
  }

  function ChartView(risks: seq<Risk>, riskFactors: seq<RiskFactor>, consequences: seq<Consequence>,
                     bowTieRelationships: seq<BowTieRelationship>, riskId: Id): (v: View)
    ensures v.NoRiskSelected? <==> forall j :: 0 <= j < |risks| ==> risks[j].id != riskId
    ensures !v.NoRiskSelected? ==> FindIndex(risks, RiskHasId(riskId)).FoundAt? && v.risk == risks[FindIndex(risks, RiskHasId(riskId)).index]
    ensures v.NoAnalysis? ==> forall j :: 0 <= j < |bowTieRelationships| ==> bowTieRelationships[j].riskId != riskId
    ensures v.Analysis? ==>
      FindIndex(bowTieRelationships, BowTieOfRisk(riskId)).FoundAt? &&
      v.relationship == bowTieRelationships[FindIndex(bowTieRelationships, BowTieOfRisk(riskId)).index]
      && v.relationship.riskId == riskId
      && v.factors == FactorsForRisk(riskFactors, v.relationship)
      && v.consequences == ConsequencesForRisk(consequences, v.relationship)
  {
    match Find(risks, RiskHasId(riskId))
    case None => NoRiskSelected
    case Some(selectedRisk) =>
      match Find(bowTieRelationships, BowTieOfRisk(riskId))
      case None => NoAnalysis(selectedRisk)
      case Some(b) => Analysis(selectedRisk, b, FactorsForRisk(riskFactors, b), ConsequencesForRisk(consequences, b))
  }

  /** The analysis shows the first relationship of the risk; a relationship listed first for
      the risk hides any later one, and a listed id with no record behind it shows no card. */
  lemma AnalysisShowsOnlyExistingRecords(risks: seq<Risk>, riskFactors: seq<RiskFactor>, consequences: seq<Consequence>,
                                         bowTieRelationships: seq<BowTieRelationship>, riskId: Id)
    requires ChartView(risks, riskFactors, consequences, bowTieRelationships, riskId).Analysis?
    ensures var v := ChartView(risks, riskFactors, consequences, bowTieRelationships, riskId);
      FindIndex(bowTieRelationships, BowTieOfRisk(riskId)).FoundAt?
      && (forall k :: 0 <= k < |bowTieRelationships| && bowTieRelationships[k].riskId == riskId ==>
         FindIndex(bowTieRelationships, BowTieOfRisk(riskId)).index <= k)
      && |v.factors| <= |riskFactors| && |v.consequences| <= |consequences|
      && (forall x :: x in v.relationship.factorIds && (forall f :: f in riskFactors ==> f.id != x) ==>
            forall f :: f in v.factors ==> f.id != x)
  {
    var v := ChartView(risks, riskFactors, consequences, bowTieRelationships, riskId);
    SubsequenceMembers(v.factors, riskFactors);
  }

  datatype CardType = FactorCard | RiskCard | ConsequenceCard

  /** JavaScript truthiness of the `activeCard` state: null and "" are falsy. */
  predicate Truthy(activeCard: Option<Id>) {
    activeCard.Some? && activeCard.value != ""
  }

  /** `isCardActive` as written: the hovered card is remembered by its id alone. */
  function IsCardActive(activeCard: Option<Id>, selectedRisk: Risk, riskFactors: seq<RiskFactor>,
                        consequences: seq<Consequence>, id: Id, cardType: CardType): (b: bool)
    ensures !Truthy(activeCard) ==> !b
    ensures Truthy(activeCard) && activeCard.value == id ==> b
    ensures b && activeCard.value != id && cardType == FactorCard ==>
      activeCard.value == selectedRisk.id
      && Find(riskFactors, FactorHasId(id)).Some? && selectedRisk.id in Find(riskFactors, FactorHasId(id)).value.riskIds
    ensures b && activeCard.value != id && cardType == ConsequenceCard ==>
      activeCard.value == selectedRisk.id
      && Find(consequences, ConsequenceHasId(id)).Some? && selectedRisk.id in Find(consequences, ConsequenceHasId(id)).value.riskIds
  {
    if !Truthy(activeCard) then false
    else
      var active := activeCard.value;
      if active == id then true
      else if cardType == FactorCard && active == selectedRisk.id then
        match Find(riskFactors, FactorHasId(id))
        case Some(factor) => selectedRisk.id in factor.riskIds
        case None => false
      else if cardType == ConsequenceCard && active == selectedRisk.id then
        match Find(consequences, ConsequenceHasId(id))
        case Some(consequence) => selectedRisk.id in consequence.riskIds
        case None => false
      else if cardType == RiskCard then
        match Find(riskFactors, FactorHasId(active))
        case Some(factor) => id in factor.riskIds
        case None =>
          match Find(consequences, ConsequenceHasId(active))
          case Some(consequence) => id in consequence.riskIds
          case None => false
      else false
  }

  /** Hovering the risk card highlights exactly the factor cards whose factor names the risk. */
  lemma HoveringRiskHighlightsItsFactors(selectedRisk: Risk, riskFactors: seq<RiskFactor>,
                                         consequences: seq<Consequence>, f: RiskFactor)
    requires selectedRisk.id != "" && f in riskFactors && f.id != selectedRisk.id
    requires forall a, b :: 0 <= a < b < |riskFactors| ==> riskFactors[a].id != riskFactors[b].id
    ensures IsCardActive(Some(selectedRisk.id), selectedRisk, riskFactors, consequences, f.id, FactorCard)
        <==> selectedRisk.id in f.riskIds
  {
    var j :| 0 <= j < |riskFactors| && riskFactors[j] == f;
    var k := FindIndex(riskFactors, FactorHasId(f.id)).index;
    assert FactorHasId(f.id)(riskFactors[j]);
    assert k == j;
  }

  /** Hovering the risk card highlights exactly the consequence cards whose consequence names the risk. */
  lemma HoveringRiskHighlightsItsConsequences(selectedRisk: Risk, riskFactors: seq<RiskFactor>,
                                              consequences: seq<Consequence>, c: Consequence)
    requires selectedRisk.id != "" && c in consequences && c.id != selectedRisk.id
    requires forall a, b :: 0 <= a < b < |consequences| ==> consequences[a].id != consequences[b].id
    ensures IsCardActive(Some(selectedRisk.id), selectedRisk, riskFactors, consequences, c.id, ConsequenceCard)
        <==> selectedRisk.id in c.riskIds
  {
    var j :| 0 <= j < |consequences| && consequences[j] == c;
    var k := FindIndex(consequences, ConsequenceHasId(c.id)).index;
    assert ConsequenceHasId(c.id)(consequences[j]);
    assert k == j;
  }

  /** Hovering a factor lights the risk card exactly when the factor names the risk. */
  lemma HoveringFactorHighlightsRisk(selectedRisk: Risk, riskFactors: seq<RiskFactor>,
                                     consequences: seq<Consequence>, f: RiskFactor)
    requires f in riskFactors && f.id != "" && f.id != selectedRisk.id
    requires forall a, b :: 0 <= a < b < |riskFactors| ==> riskFactors[a].id != riskFactors[b].id
    ensures IsCardActive(Some(f.id), selectedRisk, riskFactors, consequences, selectedRisk.id, RiskCard)
        <==> selectedRisk.id in f.riskIds
  {
    var j :| 0 <= j < |riskFactors| && riskFactors[j] == f;
    assert FactorHasId(f.id)(riskFactors[j]);
    assert FindIndex(riskFactors, FactorHasId(f.id)).index == j;
  }

  /** Hovering a consequence lights the risk card exactly when the consequence names the risk,
      provided no factor shares the consequence's id (a factor with that id is looked up first). */
  lemma HoveringConsequenceHighlightsRisk(selectedRisk: Risk, riskFactors: seq<RiskFactor>,
                                          consequences: seq<Consequence>, c: Consequence)
    requires c in consequences && c.id != "" && c.id != selectedRisk.id
    requires forall a, b :: 0 <= a < b < |consequences| ==> consequences[a].id != consequences[b].id
    requires forall j :: 0 <= j < |riskFactors| ==> riskFactors[j].id != c.id
    ensures IsCardActive(Some(c.id), selectedRisk, riskFactors, consequences, selectedRisk.id, RiskCard)
        <==> selectedRisk.id in c.riskIds
  {
    var j :| 0 <= j < |consequences| && consequences[j] == c;
    assert ConsequenceHasId(c.id)(consequences[j]);
    assert FindIndex(consequences, ConsequenceHasId(c.id)).index == j;
    assert Find(riskFactors, FactorHasId(c.id)).None?;
  }

  /** Factor '2' and consequence '2' are both drawn for the same risk: hovering the factor
      (which records only "2") lights the unrelated consequence card as well. */
  lemma HoveringFactorLightsConsequenceWithSameId()
    ensures var risk := Risk("1", "n", "d", "c", 4, 5, Some(Critical), []);
            var factor := RiskFactor("2", "Phishing", "d", ["1"]);
            var consequence := Consequence("2", "Data Loss", "d", []);
            IsCardActive(Some(factor.id), risk, [factor], [consequence], consequence.id, ConsequenceCard)
  {
  }

  /** Risk '5' with factor '7' and consequence '1' in its bow-tie, factor '1' belonging to risk '1':
      hovering consequence '1' (recorded as "1") finds factor '1' first, so the risk card stays dark
      although the consequence names risk '5'. */
  lemma HoveringConsequenceMissesItsRisk()
    ensures var risk := Risk("5", "n", "d", "c", 4, 4, Some(Critical), []);
            var factors := [RiskFactor("1", "Weak Passwords", "d", ["1"]), RiskFactor("7", "f", "d", ["5"])];
            var consequence := Consequence("1", "Financial Loss", "d", ["1", "5"]);
            risk.id in consequence.riskIds
            && !IsCardActive(Some(consequence.id), risk, factors, [consequence], risk.id, RiskCard)
  {
    var factors := [RiskFactor("1", "Weak Passwords", "d", ["1"]), RiskFactor("7", "f", "d", ["5"])];
    assert FactorHasId("1")(factors[0]);
  }

  /** The hovered card, remembered by its kind as well as its id. */
  datatype Hovered = Hovered(kind: CardType, id: Id)

  /** `isCardActive` with the hovered card's kind taken into account. */
  function IsCardActiveByKind(active: Option<Hovered>, selectedRisk: Risk, riskFactors: seq<RiskFactor>,
                              consequences: seq<Consequence>, id: Id, cardType: CardType): (b: bool)
    ensures active.None? ==> !b
    ensures active == Some(Hovered(cardType, id)) ==> b
    ensures b && active.value.kind == FactorCard ==> cardType == FactorCard || cardType == RiskCard
    ensures b && active.value.kind == ConsequenceCard ==> cardType == ConsequenceCard || cardType == RiskCard
  {
    match active
    case None => false
    case Some(h) =>
      if h.kind == cardType && h.id == id then true
      else if h.kind == RiskCard && h.id == selectedRisk.id && cardType == FactorCard then
        match Find(riskFactors, FactorHasId(id))
        case Some(factor) => selectedRisk.id in factor.riskIds
        case None => false
      else if h.kind == RiskCard && h.id == selectedRisk.id && cardType == ConsequenceCard then
        match Find(consequences, ConsequenceHasId(id))
        case Some(consequence) => selectedRisk.id in consequence.riskIds
        case None => false
      else if h.kind == FactorCard && cardType == RiskCard then
        match Find(riskFactors, FactorHasId(h.id))
        case Some(factor) => id in factor.riskIds
        case None => false
      else if h.kind == ConsequenceCard && cardType == RiskCard then
        match Find(consequences, ConsequenceHasId(h.id))
        case Some(consequence) => id in consequence.riskIds
        case None => false
      else false
  }

  /** The cards the chart can show and hover: the selected risk, a factor or a consequence. */
  predicate IsCard(selectedRisk: Risk, riskFactors: seq<RiskFactor>, consequences: seq<Consequence>,
                   kind: CardType, id: Id) {
    match kind
    case RiskCard => id == selectedRisk.id
    case FactorCard => exists j :: 0 <= j < |riskFactors| && riskFactors[j].id == id
    case ConsequenceCard => exists j :: 0 <= j < |consequences| && consequences[j].id == id
  }

  /** No id is shared between the risk, the factors and the consequences, and none is empty. */
  predicate IdsDisjoint(selectedRisk: Risk, riskFactors: seq<RiskFactor>, consequences: seq<Consequence>) {
    selectedRisk.id != ""
    && (forall j :: 0 <= j < |riskFactors| ==> riskFactors[j].id != selectedRisk.id && riskFactors[j].id != "")
    && (forall j :: 0 <= j < |consequences| ==> consequences[j].id != selectedRisk.id && consequences[j].id != "")
    && (forall j, k :: 0 <= j < |riskFactors| && 0 <= k < |consequences| ==> riskFactors[j].id != consequences[k].id)
  }

  /** When ids are not shared across the three kinds, remembering the id alone loses nothing:
      both versions highlight the same cards. */
  lemma ByKindAgreesWhenIdsDisjoint(selectedRisk: Risk, riskFactors: seq<RiskFactor>, consequences: seq<Consequence>,
                                    h: Hovered, id: Id, cardType: CardType)
    requires IdsDisjoint(selectedRisk, riskFactors, consequences)
    requires IsCard(selectedRisk, riskFactors, consequences, h.kind, h.id)
    requires IsCard(selectedRisk, riskFactors, consequences, cardType, id)
    ensures IsCardActive(Some(h.id), selectedRisk, riskFactors, consequences, id, cardType)
         == IsCardActiveByKind(Some(h), selectedRisk, riskFactors, consequences, id, cardType)
  {
    if h.kind == ConsequenceCard {
      assert Find(riskFactors, FactorHasId(h.id)).None? by {
        var k :| 0 <= k < |consequences| && consequences[k].id == h.id;
        forall j | 0 <= j < |riskFactors| ensures !FactorHasId(h.id)(riskFactors[j]) {
          assert riskFactors[j].id != consequences[k].id;
        }
      }
    }
    if h.kind == FactorCard && cardType == ConsequenceCard {
      var j :| 0 <= j < |riskFactors| && riskFactors[j].id == h.id;
      var k :| 0 <= k < |consequences| && consequences[k].id == id;
      assert h.id != id;
    }
    if h.kind == ConsequenceCard && cardType == FactorCard {
      var j :| 0 <= j < |consequences| && consequences[j].id == h.id;
      var k :| 0 <= k < |riskFactors| && riskFactors[k].id == id;
      assert h.id != id;
    }
  }

  /** With the kind remembered, hovering a consequence lights the risk card exactly when the
      consequence names the risk, whatever ids the factors have. */
  lemma ByKindHoveredConsequenceLightsItsRisk(selectedRisk: Risk, riskFactors: seq<RiskFactor>,
                                              consequences: seq<Consequence>, c: Consequence)
    requires c in consequences
    requires forall a, b :: 0 <= a < b < |consequences| ==> consequences[a].id != consequences[b].id
    ensures IsCardActiveByKind(Some(Hovered(ConsequenceCard, c.id)), selectedRisk, riskFactors, consequences,
                               selectedRisk.id, RiskCard)
        <==> selectedRisk.id in c.riskIds
  {
    var j :| 0 <= j < |consequences| && consequences[j] == c;
    assert ConsequenceHasId(c.id)(consequences[j]);
    assert FindIndex(consequences, ConsequenceHasId(c.id)).index == j;
  }

  /** With the kind remembered, hovering a factor never lights a consequence card and vice versa. */
  lemma ByKindKeepsSidesApart(selectedRisk: Risk, riskFactors: seq<RiskFactor>, consequences: seq<Consequence>,
                              hoveredId: Id, id: Id)
    ensures !IsCardActiveByKind(Some(Hovered(FactorCard, hoveredId)), selectedRisk, riskFactors, consequences, id, ConsequenceCard)
    ensures !IsCardActiveByKind(Some(Hovered(ConsequenceCard, hoveredId)), selectedRisk, riskFactors, consequences, id, FactorCard)
  {
  }
}
