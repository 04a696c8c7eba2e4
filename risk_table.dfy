/** The risk catalogue table: its category list and its three filters. */
module RiskTable {
  import opened Types
  import opened Seqs
  import opened Text
  import opened Helpers
  import opened GRCContext

  /** The table's filter state: the search box and the two drop-downs; "" means "all". */
  datatype RiskFilters = RiskFilters(searchTerm: string, categoryFilter: string, levelFilter: string)

  const NoFilters := RiskFilters("", "", "")

  /** The row predicate: search AND category AND level, an empty drop-down accepting everything.
      The level compared is the stored one, so a risk without a level never passes a level filter. */
  predicate RiskMatches(r: Risk, f: RiskFilters) {
    MatchesSearch(r.name, r.description, f.searchTerm)
    && (f.categoryFilter == "" || r.category == f.categoryFilter)
    && (f.levelFilter == "" || (r.level.Some? && LevelName(r.level.value) == f.levelFilter))
  }

  function Row(f: RiskFilters): Risk -> bool {
    (x: Risk) => RiskMatches(x, f)
  }

  /** `filteredRisks`: the matching risks in catalogue order. */
  function FilteredRisks(risks: seq<Risk>, f: RiskFilters): (r: seq<Risk>)
    ensures IsSubsequence(r, risks)
    ensures forall x :: x in r <==> x in risks && RiskMatches(x, f)
  {
    FilterIsSubsequence(risks, Row(f));
    Filter(risks, Row(f))
  }

  /** With every filter cleared the table shows the whole catalogue, in order. */
  lemma NoFiltersShowsAll(risks: seq<Risk>)
    ensures FilteredRisks(risks, NoFilters) == risks
  {
    forall x | x in risks ensures RiskMatches(x, NoFilters) {
      MatchesSearchProperties(x.name, x.description, "");
    }
    FilterAllPass(risks, Row(NoFilters));
  }

  /** Choosing a category or a level only removes rows, keeping the order of the rest. */
  lemma NarrowingKeepsOrder(risks: seq<Risk>, f: RiskFilters, category: string, level: string)
    requires f.categoryFilter == "" && f.levelFilter == ""
    ensures IsSubsequence(FilteredRisks(risks, f.(categoryFilter := category, levelFilter := level)),
                          FilteredRisks(risks, f))
  {
    FilterMonotone(risks, Row(f.(categoryFilter := category, levelFilter := level)), Row(f));
  }

  /** Filtering the filtered rows again changes nothing. */
  lemma FilterTwice(risks: seq<Risk>, f: RiskFilters)
    ensures FilteredRisks(FilteredRisks(risks, f), f) == FilteredRisks(risks, f)
  {
    FilterIdempotent(risks, Row(f));
  }

  /** In a store whose levels are consistent, the level filter selects by the level
      computed from likelihood and impact; a filter naming no level selects nothing. */
  lemma LevelFilterUsesComputedLevel(risks: seq<Risk>, f: RiskFilters, x: Risk)
    requires LevelsConsistent(risks) && x in risks && f.levelFilter != ""
    ensures x in FilteredRisks(risks, f) <==>
      MatchesSearch(x.name, x.description, f.searchTerm)
      && (f.categoryFilter == "" || x.category == f.categoryFilter)
      && LevelName(CalculateRiskLevel(x.likelihood, x.impact)) == f.levelFilter
    ensures (forall l :: LevelName(l) != f.levelFilter) ==> FilteredRisks(risks, f) == []
  {
    var j :| 0 <= j < |risks| && risks[j] == x;
    assert LevelConsistent(risks[j]);
    var r := FilteredRisks(risks, f);
    assert |r| > 0 ==> r[0] in r;
  }

  /** `risks.map(r => r.category)`. */
  function CategoryList(risks: seq<Risk>): (cs: seq<string>)
    ensures |cs| == |risks| && forall j :: 0 <= j < |risks| ==> cs[j] == risks[j].category
  {
    seq(|risks|, j requires 0 <= j < |risks| => risks[j].category)
  }

  /** Risk `j` is the first one whose category is `c`. */
  predicate FirstWith(risks: seq<Risk>, c: string, j: int) {
    0 <= j < |risks| && risks[j].category == c && forall i :: 0 <= i < j ==> risks[i].category != c
  }

  /** The categories in the catalogue, each once, in the order a `Set` keeps them: the order
      in which they first occur among the risks. */
  function CategoriesInOrder(risks: seq<Risk>): (r: seq<string>)
    ensures NoDuplicates(r)
    ensures forall c :: c in r <==> exists j :: 0 <= j < |risks| && risks[j].category == c
    ensures IsSubsequence(r, CategoryList(risks))
    ensures forall a, b, ja, jb :: 0 <= a < b < |r| && FirstWith(risks, r[a], ja) && FirstWith(risks, r[b], jb) ==> ja < jb
  {
    if risks == [] then []
    else
      var init := risks[..|risks| - 1];
      var prefix := CategoriesInOrder(init);
      var c := risks[|risks| - 1].category;
      assert forall j :: 0 <= j < |init| ==> init[j] == risks[j];
      assert CategoryList(risks) == CategoryList(init) + [c];
      SubsequenceExtend(prefix, CategoryList(init), c);
      assert forall x, j :: x in prefix && FirstWith(risks, x, j) ==> FirstWith(init, x, j) by {
        forall x, j | x in prefix && FirstWith(risks, x, j) ensures FirstWith(init, x, j) {
          var i :| 0 <= i < |init| && init[i].category == x;
        }
      }
      if c in prefix then prefix else prefix + [c]
  }

  /** `categories`: collect the categories into a set, then `sort()` them. */
  method Categories(risks: seq<Risk>) returns (categories: seq<string>)
    ensures StrictlySorted(categories) && |categories| <= |risks|
    ensures forall c :: c in categories <==> exists j :: 0 <= j < |risks| && risks[j].category == c
  {
    var uniqueCategories: seq<string> := [];
    var i := 0;
    while i < |risks|
      invariant 0 <= i <= |risks|
      invariant uniqueCategories == CategoriesInOrder(risks[..i])
      invariant |uniqueCategories| <= i
    {
      assert risks[..i + 1][..i] == risks[..i];
      if risks[i].category !in uniqueCategories {
        uniqueCategories := uniqueCategories + [risks[i].category];
      }
      i := i + 1;
    }
    assert risks[..i] == risks;
    categories := SortDistinct(uniqueCategories);
  }
}
