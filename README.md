# GRCWalk core in Dafny

GRCWalk is a governance, risk and compliance tool. Its core is modelled here:

- **Risk scoring.** The level of a risk is computed from likelihood × impact with thresholds 3, 8 and 15. Each level has a badge colour and a heatmap colour, and risks can be tallied per level.
- **The entity store.** It holds risks, controls, risk factors, consequences and bow-tie relationships. Its add, update and delete operations keep the cross references between these collections.
- **The views built on the store:**
  - the risk and control tables, with their search and drop-down filters and the sorted category list;
  - the 5 × 5 heatmap, its buckets and its cells;
  - the bow-tie chart, its record lookups and its hover highlighting;
  - the risk and control editors, with their field handlers, checkbox toggles, derived level and the store call a submission makes.

Modules and files:

| file | module | models |
|---|---|---|
| `types.dfy` | `Types` | record shapes, enumerations and their literals, drafts (records without id), patches (`Partial` records) |
| `seqs.dfy` | `Seqs` | `filter`, `find`, `findIndex`, "remove every occurrence", the checkbox toggle, subsequences |
| `text.dfy` | `Text` | `toLowerCase` on ASCII, `includes`, `Number()` on decimal numerals, string order of `sort()` |
| `helpers.dfy` | `Helpers` | `src/utils/helpers.ts` |
| `context.dfy` | `GRCContext` | `src/context/GRCContext.tsx`: pure transforms for each state setter and the `Store` class |
| `risk_table.dfy`, `control_table.dfy` | `RiskTable`, `ControlTable` | the two tables |
| `heatmap.dfy` | `Heatmap` | `src/components/heatmap/RiskHeatmap.tsx` |
| `bowtie.dfy` | `BowTie` | `src/components/bowtie/BowTieChart.tsx` |
| `risk_form.dfy`, `control_form.dfy` | `RiskForm`, `ControlForm` | the two editors, as classes over their state |

Store operations are methods of `GRCContext.Store`. Each method's `ensures` ties the new state to the pure transforms of the old state, and the lemmas about those transforms state what the source promises. A `forEach` that issues one `setRisks` per linked id becomes a `while` loop of those updates. Ids come from the source's random generator; here they are a parameter, with a precondition that no record of that kind already has the id.

**Design and code disagree on the Risk ↔ Control relation.** The design describes a symmetric relation: a risk lists a control exactly when the control lists the risk, after every operation. The code does not keep it, and the model follows the code:

- `addRisk` and `updateRisk` never touch the controls. `GRCContext.AddRiskCanBreakSymmetry` and `GRCContext.UpdateRiskCanBreakSymmetry` show each one breaking the relation.
- The seed data is already asymmetric: risk '6' lists controls '1' and '2', which list only risk '1'. `GRCContext.SeedIsAsymmetric` records this.
- `addControl` (when the new id is not already referenced), `updateControl` (when the patch leaves the control's id alone, as the editor's patch does), `deleteControl` and `deleteRisk` do preserve the relation. The `...KeepsSymmetry` lemmas prove this.

## Model

| member | source | states |
|---|---|---|
| `Types.ParseControlType` | src/components/controls/ControlForm.tsx:144-153 | reads a type `<select>` value back: Some(t) only when t's literal is the string, None only when no type has that literal |
| `Types.ParseControlStatus` | src/components/controls/ControlForm.tsx:165-174 | the same for status values, including "Not Implemented" |
| `Types.NamesInjective` | src/types/index.ts:3-5 | the literals of each enumeration are pairwise distinct, so comparing literals compares values |
| `Types.NamesNonEmpty` | src/types/index.ts:3-5 | no literal is empty, so only a non-empty drop-down value can select by it |
| `Types.ParseNameRoundTrip` | src/components/controls/ControlForm.tsx:149-173 | every option's literal parses back to the value it shows |
| `Seqs.Filter` | src/components/risks/RiskTable.tsx:35 | `filter` keeps exactly the elements satisfying the predicate and never lengthens the list |
| `Seqs.FilterIsSubsequence` | src/components/risks/RiskTable.tsx:35 | `filter` keeps the survivors in their original order |
| `Seqs.FindIndex` | src/components/bowtie/BowTieChart.tsx:16 | the first position whose element satisfies the predicate; NotFound exactly when none does |
| `Seqs.Find` | src/components/bowtie/BowTieChart.tsx:16 | `find` returns the element at the first satisfying position, or nothing when none satisfies |
| `Seqs.RemoveAll` | src/context/GRCContext.tsx:113 | `ids.filter(x => x !== id)` drops every occurrence of the id and keeps every other member |
| `Seqs.Toggle` | src/components/risks/RiskForm.tsx:63-66 | a present id is removed everywhere with the others kept in order, an absent one appended at the end |
| `Seqs.ToggleTwiceAbsent` | src/components/risks/RiskForm.tsx:64-66 | toggling an absent id twice restores the list |
| `Seqs.RemoveAllIsSubsequence` | src/context/GRCContext.tsx:113 | removing an id keeps the order of the others |
| `Text.Includes` | src/components/risks/RiskTable.tsx:37-38 | `includes` holds exactly when the term occurs at some position |
| `Text.LowerNormalises` | src/components/risks/RiskTable.tsx:37-38 | lower-casing leaves no upper-case letter and is idempotent |
| `Text.MatchesSearchProperties` | src/components/risks/RiskTable.tsx:36-38 | an empty search term matches every record, and the case of the term does not matter |
| `Text.MatchesIgnoringCaseExample` | src/components/risks/RiskTable.tsx:36-38 | "fraud" and "FRAUD" are found in "Financial Fraud" but not in "Data Encryption" |
| `Text.NumberRoundTrip` | src/components/risks/RiskForm.tsx:58 | `Number()` of a rendered option value gives back that number |
| `Text.SortDistinct` | src/components/risks/RiskTable.tsx:30 | sorting distinct strings gives a strictly increasing list of the same strings |
| `Helpers.CalculateRiskLevel` | src/utils/helpers.ts:4-11 | Critical iff the score is at least 15, High iff 8..14, Medium iff 3..7, Low iff below 3 |
| `Helpers.ScoreToLevel` | src/utils/helpers.ts:7-10 | the four bands of a score, each as an if-and-only-if |
| `Helpers.BoundaryCases` | src/utils/helpers.ts:5-10 | (1,2) Low, (1,3) Medium, (2,4) High, (3,5) Critical, and the neighbouring edges |
| `Helpers.MatrixExhaustive` | src/utils/helpers.ts:4-11 | all 25 cells of the 1..5 × 1..5 grid equal a fixed level matrix |
| `Helpers.ScoreMonotone` | src/utils/helpers.ts:7-10 | a larger score never gives a lower level |
| `Helpers.LevelMonotone` | src/utils/helpers.ts:5-10 | a larger likelihood × impact never gives a lower level |
| `Helpers.LevelMonotoneInFactors` | src/utils/helpers.ts:5-10 | raising likelihood or impact (non-negative) never lowers the level |
| `Helpers.LevelSymmetric` | src/utils/helpers.ts:5 | swapping likelihood and impact gives the same level |
| `Helpers.RiskLevelColorInjective` | src/utils/helpers.ts:14-27 | the four badge classes and the four heatmap classes are pairwise distinct |
| `Helpers.HeatmapColorByLevel` | src/utils/helpers.ts:30-45 | two cells share a colour iff they share a level |
| `Helpers.FallbackColorsUnreachable` | src/utils/helpers.ts:24-43 | the grey default of both switches is never returned |
| `Helpers.BadgeExtendsBackground` | src/utils/helpers.ts:16-41 | each badge class starts with the heatmap background of the same level |
| `Helpers.Increment` | src/utils/helpers.ts:59 | `counts[level]++` raises that level's count by one and leaves the other three alone |
| `Helpers.CountLevelsSum` | src/utils/helpers.ts:48-62 | every risk is counted under exactly one level |
| `Helpers.GetRiskCounts` | src/utils/helpers.ts:48-62 | each count is the number of risks whose recomputed level is that level (stored levels ignored), and the counts sum to the number of risks |
| `GRCContext.WithComputedLevels` | src/context/GRCContext.tsx:67-72 | every initial risk carries the level of its own scores; nothing else about the seed risk changes |
| `GRCContext.NewRisk` | src/context/GRCContext.tsx:79-84 | the risk `addRisk` appends has the fresh id and a consistent level |
| `GRCContext.PatchRisk` | src/context/GRCContext.tsx:91-99 | a patch with likelihood or impact recomputes the level from the patched-or-old pair; otherwise the level is what the merge gives |
| `GRCContext.UpdateRisksSpec` | src/context/GRCContext.tsx:88-104 | only risks with the id change, each present patch field overrides, and applying the same patch twice equals applying it once |
| `GRCContext.UpdateControlsSpec` | src/context/GRCContext.tsx:167-172 | only controls with the id change, each present patch field overrides, each absent one keeps its value, and a second application changes nothing |
| `GRCContext.UpdateFactorsSpec` | src/context/GRCContext.tsx:239-246 | the same partial merge at one id for risk factors |
| `GRCContext.UpdateConsequencesSpec` | src/context/GRCContext.tsx:268-275 | the same partial merge at one id for consequences |
| `GRCContext.UpdateBowTiesSpec` | src/context/GRCContext.tsx:297-304 | the same partial merge at one id for bow-tie relationships |
| `GRCContext.UpdateRisksKeepsLevels` | src/context/GRCContext.tsx:88-104 | levels stay consistent unless a patch sets `level` without likelihood or impact |
| `GRCContext.UpdateRisksCanDesyncLevel` | src/context/GRCContext.tsx:91-99 | a patch carrying only `level` overrides the computed level |
| `GRCContext.RemoveRisk` | src/context/GRCContext.tsx:108 | no risk with the id remains, all others do, in their order |
| `GRCContext.ScrubControls` | src/context/GRCContext.tsx:111-114 | no control lists the deleted risk; each control keeps its other risk ids in their order; nothing else in a control changes |
| `GRCContext.ScrubFactors` | src/context/GRCContext.tsx:117-120 | no factor lists the deleted risk; each keeps its other risk ids in their order; nothing else changes |
| `GRCContext.ScrubConsequences` | src/context/GRCContext.tsx:123-126 | no consequence lists the deleted risk; each keeps its other risk ids in their order; nothing else changes |
| `GRCContext.RemoveBowTiesOfRisk` | src/context/GRCContext.tsx:129 | exactly the bow-ties anchored on other risks remain |
| `GRCContext.RemoveControl` | src/context/GRCContext.tsx:212 | no control with the id remains, all others do, in their order |
| `GRCContext.LinkControlSpec` | src/context/GRCContext.tsx:141-151 | after `addControl` each risk gains the new id once per listing of the risk, at the end; unlisted risks are unchanged |
| `GRCContext.UnlinkControlSpec` | src/context/GRCContext.tsx:215-227 | after `deleteControl` exactly the risks the control listed lose its id |
| `GRCContext.Removed` | src/context/GRCContext.tsx:178 | the ids in the old list and not in the new one |
| `GRCContext.Added` | src/context/GRCContext.tsx:192 | the ids in the new list and not in the old one |
| `GRCContext.UpdateControlRisksSpec` | src/context/GRCContext.tsx:154-205 | dropped risks lose the id, newly listed risks gain it at the end, all others are unchanged; without `riskIds` or without such a control nothing changes |
| `GRCContext.RemoveFactor` | src/context/GRCContext.tsx:250 | no factor with the id remains, all others do, in their order |
| `GRCContext.ScrubFactorIds` | src/context/GRCContext.tsx:253-256 | no bow-tie lists the deleted factor; each keeps its other factor ids in their order; nothing else in a bow-tie changes |
| `GRCContext.RemoveConsequence` | src/context/GRCContext.tsx:279 | no consequence with the id remains, all others do, in their order |
| `GRCContext.ScrubConsequenceIds` | src/context/GRCContext.tsx:282-285 | no bow-tie lists the deleted consequence; each keeps its other consequence ids in their order; nothing else changes |
| `GRCContext.RemoveBowTie` | src/context/GRCContext.tsx:307 | no bow-tie with the id remains, all others do, in their order |
| `GRCContext.EmptyPatchesChangeNothing` | src/context/GRCContext.tsx:88-304 | an update whose patch has no field leaves every collection as it was |
| `GRCContext.AddRiskCanBreakSymmetry` | src/context/GRCContext.tsx:79-86 | adding a risk that lists a control leaves that control unaware of it |
| `GRCContext.UpdateRiskCanBreakSymmetry` | src/context/GRCContext.tsx:88-104 | giving a risk new control ids leaves those controls unaware of it |
| `GRCContext.SeedIsAsymmetric` | src/data/initialData.ts:51-57 | risk '6' listing controls '1' and '2' against control '1' listing only risk '1' breaks the relation |
| `GRCContext.AddControlKeepsSymmetry` | src/context/GRCContext.tsx:133-152 | `addControl` keeps the Risk ↔ Control relation when no risk already refers to the new id |
| `GRCContext.UpdateControlKeepsSymmetry` | src/context/GRCContext.tsx:154-205 | `updateControl` keeps the relation when the patch leaves the control's id alone |
| `GRCContext.DeleteControlKeepsSymmetry` | src/context/GRCContext.tsx:207-228 | `deleteControl` keeps the relation, and when the relation held and the control existed no risk still refers to it |
| `GRCContext.DeleteRiskKeepsSymmetry` | src/context/GRCContext.tsx:106-130 | `deleteRisk` keeps the relation |
| `GRCContext.Store.constructor` | src/context/GRCContext.tsx:67-76 | the five collections start as the seed, the risks with computed levels |
| `GRCContext.Store.AddRisk` | src/context/GRCContext.tsx:79-86 | appends exactly one risk at the end, keeps levels consistent, other collections unchanged |
| `GRCContext.Store.UpdateRisk` | src/context/GRCContext.tsx:88-104 | the risks become the patched list; levels stay consistent for a patch without `level`; other collections unchanged |
| `GRCContext.Store.DeleteRisk` | src/context/GRCContext.tsx:106-130 | the risk goes; no control, factor or consequence lists it; no bow-tie is anchored on it; survivors keep their order |
| `GRCContext.Store.AddControl` | src/context/GRCContext.tsx:133-152 | appends the control, then one risk update per listed id, in order |
| `GRCContext.Store.UpdateControl` | src/context/GRCContext.tsx:154-205 | patches the control as `UpdateControlsSpec` states and adjusts the risks as `UpdateControlRisksSpec` states |
| `GRCContext.Store.DeleteControl` | src/context/GRCContext.tsx:207-228 | removes the control and strips its id from the risks it listed, or from none if it did not exist |
| `GRCContext.Store.AddRiskFactor` | src/context/GRCContext.tsx:231-237 | appends one factor with the fresh id; nothing else changes |
| `GRCContext.Store.UpdateRiskFactor` | src/context/GRCContext.tsx:239-246 | the factors become the partial merge at the id that `UpdateFactorsSpec` characterises; nothing else changes |
| `GRCContext.Store.DeleteRiskFactor` | src/context/GRCContext.tsx:248-257 | removes the factor and its id from every bow-tie; risks, controls and consequences untouched |
| `GRCContext.Store.AddConsequence` | src/context/GRCContext.tsx:260-266 | appends one consequence with the fresh id; nothing else changes |
| `GRCContext.Store.UpdateConsequence` | src/context/GRCContext.tsx:268-275 | the consequences become the partial merge at the id that `UpdateConsequencesSpec` characterises; nothing else changes |
| `GRCContext.Store.DeleteConsequence` | src/context/GRCContext.tsx:277-286 | removes the consequence and its id from every bow-tie; risks, controls and factors untouched |
| `GRCContext.Store.AddBowTieRelationship` | src/context/GRCContext.tsx:289-295 | appends one relationship with the fresh id; nothing else changes |
| `GRCContext.Store.UpdateBowTieRelationship` | src/context/GRCContext.tsx:297-304 | the relationships become the partial merge at the id that `UpdateBowTiesSpec` characterises; nothing else changes |
| `GRCContext.Store.DeleteBowTieRelationship` | src/context/GRCContext.tsx:306-308 | removes the relationships with the id; nothing else changes |
| `RiskTable.FilteredRisks` | src/components/risks/RiskTable.tsx:34-45 | a risk is shown iff search, category and level all match, in catalogue order |
| `RiskTable.NoFiltersShowsAll` | src/components/risks/RiskTable.tsx:36-41 | with every filter empty the whole catalogue is shown |
| `RiskTable.NarrowingKeepsOrder` | src/components/risks/RiskTable.tsx:40-43 | choosing a category or level only removes rows |
| `RiskTable.FilterTwice` | src/components/risks/RiskTable.tsx:34-45 | filtering the shown rows again changes nothing |
| `RiskTable.LevelFilterUsesComputedLevel` | src/components/risks/RiskTable.tsx:41 | in a store with consistent levels the level filter selects by the computed level; a value naming no level selects nothing |
| `RiskTable.CategoriesInOrder` | src/components/risks/RiskTable.tsx:24-28 | the `Set` before sorting: each category of the catalogue once, nothing else, ordered by first occurrence among the risks (the list the risk editor's drop-down shows unsorted) |
| `RiskTable.Categories` | src/components/risks/RiskTable.tsx:23-31 | the categories, each once, strictly sorted, nothing else |
| `ControlTable.FilteredControls` | src/components/controls/ControlTable.tsx:22-33 | a control is shown iff search, type and status all match, in library order |
| `ControlTable.NoFiltersShowsAll` | src/components/controls/ControlTable.tsx:24-29 | with every filter empty the whole library is shown |
| `ControlTable.FilterTwice` | src/components/controls/ControlTable.tsx:23-32 | filtering the shown rows again changes nothing |
| `ControlTable.DropDownsSelectByValue` | src/components/controls/ControlTable.tsx:28-29 | a drop-down value selects exactly the controls of the type or status it names |
| `Heatmap.BucketMembers` | src/components/heatmap/RiskHeatmap.tsx:14-20 | an id is in a bucket iff a risk with that id has that likelihood and impact |
| `Heatmap.BucketIdsInOrder` | src/components/heatmap/RiskHeatmap.tsx:19 | within a bucket ids keep catalogue order |
| `Heatmap.BuildRiskMap` | src/components/heatmap/RiskHeatmap.tsx:11-20 | a key is present iff some risk has it, and holds that bucket |
| `Heatmap.GenerateHeatmap` | src/components/heatmap/RiskHeatmap.tsx:23-94 | five rows of five cells, impact 5 down to 1 and likelihood 1 up to 5, each with its count, colour and ids |
| `Heatmap.GridAccountsForEveryRisk` | src/components/heatmap/RiskHeatmap.tsx:27-34 | the 25 counts sum to the number of risks with both scores in 1..5 |
| `Heatmap.RiskInItsOwnCell` | src/components/heatmap/RiskHeatmap.tsx:14-20 | with unique ids a risk appears in the cell of its own position and no other |
| `Heatmap.CellColorIsLevelColor` | src/components/heatmap/RiskHeatmap.tsx:32-35 | a cell's colour is its level's background, and its count is positive iff a risk sits there |
| `BowTie.FactorsForRisk` | src/components/bowtie/BowTieChart.tsx:36-38 | the factors whose id the relationship lists, in factor-collection order; dangling ids show nothing |
| `BowTie.ConsequencesForRisk` | src/components/bowtie/BowTieChart.tsx:40-42 | the same for consequences |
| `BowTie.ChartView` | src/components/bowtie/BowTieChart.tsx:16-42 | no analysis without the risk or without a relationship; otherwise the first matching risk and relationship and their cards |
| `BowTie.AnalysisShowsOnlyExistingRecords` | src/components/bowtie/BowTieChart.tsx:26-38 | the first relationship of the risk is used, and no card appears for an id without a record |
| `BowTie.IsCardActive` | src/components/bowtie/BowTieChart.tsx:45-75 | nothing is lit when nothing is hovered; the hovered card is lit; a factor or consequence is lit through the risk only when the risk is hovered and it names the risk |
| `BowTie.HoveringRiskHighlightsItsFactors` | src/components/bowtie/BowTieChart.tsx:52-55 | hovering the risk lights a factor iff the factor names the risk |
| `BowTie.HoveringRiskHighlightsItsConsequences` | src/components/bowtie/BowTieChart.tsx:57-60 | hovering the risk lights a consequence iff it names the risk |
| `BowTie.HoveringFactorHighlightsRisk` | src/components/bowtie/BowTieChart.tsx:62-67 | hovering a factor lights the risk iff the factor names it |
| `BowTie.HoveringConsequenceHighlightsRisk` | src/components/bowtie/BowTieChart.tsx:62-72 | hovering a consequence lights the risk iff it names it, when no factor shares its id |
| `BowTie.HoveringFactorLightsConsequenceWithSameId` | src/components/bowtie/BowTieChart.tsx:48-50 | hovering factor '2' lights consequence card '2' |
| `BowTie.HoveringConsequenceMissesItsRisk` | src/components/bowtie/BowTieChart.tsx:62-67 | hovering consequence '1' in risk '5''s chart leaves the risk dark because factor '1' is found first |
| `BowTie.IsCardActiveByKind` | src/components/bowtie/BowTieChart.tsx:45-75 | with the hovered card's kind remembered: nothing lit when nothing is hovered, the hovered card is lit, and a hovered factor or consequence never lights the other side |
| `BowTie.ByKindAgreesWhenIdsDisjoint` | src/components/bowtie/BowTieChart.tsx:45-75 | when no id is shared across kinds, both versions light the same cards |
| `BowTie.ByKindHoveredConsequenceLightsItsRisk` | src/components/bowtie/BowTieChart.tsx:68-71 | with the kind remembered, hovering a consequence lights the risk iff it names the risk, whatever the factor ids |
| `BowTie.ByKindKeepsSidesApart` | src/components/bowtie/BowTieChart.tsx:45-75 | with the kind remembered, factors never light consequences and vice versa |
| `RiskForm.SetField` | src/components/risks/RiskForm.tsx:52-60 | rejects only unknown field names and unreadable numbers; the control list is never touched; scores change only through their own fields |
| `RiskForm.FieldsStoreTheirValues` | src/components/risks/RiskForm.tsx:55-59 | option n of a score select stores the number n; text fields store the raw string |
| `RiskForm.ToggleControl` | src/components/risks/RiskForm.tsx:62-73 | a ticked control is removed, an unticked one appended at the end, the other fields untouched |
| `RiskForm.ToggleTwiceRestores` | src/components/risks/RiskForm.tsx:64-66 | ticking and unticking restores the form |
| `RiskForm.AsPatch` | src/components/risks/RiskForm.tsx:79 | the edit patch carries likelihood and impact and neither id nor level |
| `RiskForm.UntouchedEditChangesNothing` | src/components/risks/RiskForm.tsx:29-45 | saving a loaded, unchanged edit form leaves the store's risks as they were |
| `RiskForm.Submit` | src/components/risks/RiskForm.tsx:75-87 | an update of the edited risk when editing, an add otherwise, never both |
| `RiskForm.SubmitKeepsLevels` | src/components/risks/RiskForm.tsx:75-87 | any submission keeps every stored level consistent |
| `RiskForm.RiskFormState.constructor` | src/components/risks/RiskForm.tsx:16-45 | a new form holds likelihood 1, impact 1, level Low; an edit form a copy of the risk and its level |
| `RiskForm.RiskFormState.HandleInputChange` | src/components/risks/RiskForm.tsx:48-60 | the field changes as `SetField` states and the displayed level stays equal to the level of the scores |
| `RiskForm.RiskFormState.HandleControlToggle` | src/components/risks/RiskForm.tsx:62-73 | the control list toggles; the displayed level stays in step |
| `RiskForm.RiskFormState.HandleSubmit` | src/components/risks/RiskForm.tsx:75-87 | the store performs the submission's call; its levels stay consistent; its other collections are unchanged |
| `ControlForm.SetField` | src/components/controls/ControlForm.tsx:45-53 | name and description always accepted; type and status accept exactly their option literals, effectiveness exactly readable numbers; every field but the edited one keeps its value |
| `ControlForm.OptionsStoreTheirValues` | src/components/controls/ControlForm.tsx:144-192 | name and description store the raw string, and every type option, status option and effectiveness step stores the value it shows, all other fields kept |
| `ControlForm.ToggleRisk` | src/components/controls/ControlForm.tsx:55-66 | a ticked risk is removed, an unticked one appended at the end, the other fields untouched |
| `ControlForm.ToggleTwiceRestores` | src/components/controls/ControlForm.tsx:57-59 | ticking and unticking restores the form |
| `ControlForm.AsPatch` | src/components/controls/ControlForm.tsx:72 | the edit patch carries the risk list and no id |
| `ControlForm.UntouchedEditChangesNothing` | src/components/controls/ControlForm.tsx:32-43 | saving a loaded, unchanged edit form leaves controls and risks as they were |
| `ControlForm.Submit` | src/components/controls/ControlForm.tsx:68-80 | an update of the edited control when editing, an add otherwise |
| `ControlForm.ControlFormState.constructor` | src/components/controls/ControlForm.tsx:15-43 | a new form is Preventive, Planned, effectiveness 3, no risks; an edit form a copy of the control |
| `ControlForm.ControlFormState.HandleInputChange` | src/components/controls/ControlForm.tsx:45-53 | the field changes as `SetField` states |
| `ControlForm.ControlFormState.HandleRiskToggle` | src/components/controls/ControlForm.tsx:55-66 | the risk list toggles |
| `ControlForm.ControlFormState.HandleSubmit` | src/components/controls/ControlForm.tsx:68-80 | the store adds the control and links its risks, or updates it and adjusts its risks |

## Left out

- The server (Express routes, MySQL access, SQL seeding) and `src/services/api.ts` are I/O. The server's own copy of the level rule is the same rule as `Helpers.CalculateRiskLevel`.
- `generateId` is randomness. The fresh id is a parameter of each add, with a freshness precondition. `formatDate` depends on `Intl`.
- Dashboard and status charts are percentages and SVG geometry, which is floating-point presentation.
- These pages with local fixture data are not part of this model: vendors, action plans, compliance and audits, together with their forms. Their filters have the same shape as the two tables.
- Rendering and navigation are not modelled: markup, the heatmap's hovered-cell state and its tooltip name lookup, the mouse handlers that set `activeCard`, and `window.confirm`.
- React scheduling is not modelled. Each store operation is one sequential transition on the state just before the call. Batching, and the stale `controls` closure read by `updateControl` and `deleteControl`, are outside the model.
- A `Partial` patch field is either present or absent. A key present with the value `undefined`, which would overwrite with `undefined`, is not modelled.
- `Number()` is modelled on decimal numerals and on "" (which gives 0). For any other string the handler is treated as rejected and the form is unchanged, where JavaScript would store NaN or the parsed value. Values from the form's own selects and range are always numerals.
- ControlForm.SetField: a `type` or `status` value that is not one of the option literals is rejected and the form stays unchanged, where the source would store any string it receives (src/components/controls/ControlForm.tsx:51). Only the selects (src/components/controls/ControlForm.tsx:144-174) produce these values, and they offer only the literals.
- `handleInputChange` with a name that is not a field of the form would add a stray key in the source. The model rejects it. Only the form's own inputs call the handler.
- Before its first effect, the risk form's `riskLevel` is ''. The model starts after the mount effects, when it already holds the computed level.
- `toLowerCase` is modelled on ASCII letters only. `sort()` compares UTF-16 code units, while the model compares characters; the two agree on strings within the Basic Multilingual Plane.
- Likelihood, impact and effectiveness are JavaScript numbers in the source; the model makes them integers, so a fractional score such as `calculateRiskLevel(2.5, 3)` is not expressible. The store only receives integers: from the 1..5 selects, the 1..5 range and the seed data.
- The heatmap keys buckets by the string "likelihood,impact". The model keys by the pair, which that string determines.
- The seed data (`src/data/initialData.ts`) enters only as the ids behind `GRCContext.SeedIsAsymmetric` and the bow-tie counterexamples. The full fixture is not modelled.

## Findings

| source | as written | input that shows it | evidently intended | confidence | as-written member | corrected member |
|---|---|---|---|---|---|---|
| src/components/bowtie/BowTieChart.tsx:45-50 | `activeCard` remembers only the hovered card's id, and `activeCard === id` lights any card with that id, whatever its kind | risk '1''s chart shows factor '2' and consequence '2' (src/data/initialData.ts:361-362); hovering the factor also lights the consequence | a hovered factor lights itself and the risk, never a consequence | high, not executed | `BowTie.HoveringFactorLightsConsequenceWithSameId` | `BowTie.IsCardActiveByKind` |
| src/components/bowtie/BowTieChart.tsx:62-72 | for the risk card the hovered id is looked up among factors first, then among consequences | risk '5''s chart shows consequence '1', which names risk '5', while factor '1' names only risk '1' (src/data/initialData.ts:384-386); hovering consequence '1' leaves the risk card dark | hovering a consequence lights the risk card iff the consequence names the risk | high, not executed | `BowTie.HoveringConsequenceMissesItsRisk` | `BowTie.ByKindHoveredConsequenceLightsItsRisk` |
