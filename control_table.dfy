/** The control library table and its three filters. */
module ControlTable {
  import opened Types
  import opened Seqs
  import opened Text

  /** The table's filter state: the search box, the type and the status drop-downs; "" means "all". */
  datatype ControlFilters = ControlFilters(searchTerm: string, typeFilter: string, statusFilter: string)

  const NoFilters := ControlFilters("", "", "")

  /** The row predicate: search AND type AND status, each drop-down compared by its literal. */
  predicate ControlMatches(c: Control, f: ControlFilters) {
    MatchesSearch(c.name, c.description, f.searchTerm)
    && (f.typeFilter == "" || TypeName(c.controlType) == f.typeFilter)
    && (f.statusFilter == "" || StatusName(c.status) == f.statusFilter)
  }

  function Row(f: ControlFilters): Control -> bool {
    (x: Control) => ControlMatches(x, f)
  }

  /** `filteredControls`: the matching controls in library order. */
  function FilteredControls(controls: seq<Control>, f: ControlFilters): (r: seq<Control>)
    ensures IsSubsequence(r, controls)
    ensures forall x :: x in r <==> x in controls && ControlMatches(x, f)
  {
    FilterIsSubsequence(controls, Row(f));
    Filter(controls, Row(f))
  }

  /** With every filter cleared the table shows the whole library, in order. */
  lemma NoFiltersShowsAll(controls: seq<Control>)
    ensures FilteredControls(controls, NoFilters) == controls
  {
    forall x | x in controls ensures ControlMatches(x, NoFilters) {
      MatchesSearchProperties(x.name, x.description, "");
    }
    FilterAllPass(controls, Row(NoFilters));
  }

  /** Filtering the filtered rows again changes nothing. */
  lemma FilterTwice(controls: seq<Control>, f: ControlFilters)
    ensures FilteredControls(FilteredControls(controls, f), f) == FilteredControls(controls, f)
  {
    FilterIdempotent(controls, Row(f));
  }

  /** A drop-down value selects exactly the controls of the type or status it names, and a
      value that names none selects nothing. */
  lemma DropDownsSelectByValue(controls: seq<Control>, f: ControlFilters, x: Control)
    requires x in controls && f.searchTerm == ""
    ensures f.typeFilter != "" && f.statusFilter == "" ==>
      (x in FilteredControls(controls, f) <==> ParseControlType(f.typeFilter) == Some(x.controlType))
    ensures f.statusFilter != "" && f.typeFilter == "" ==>
      (x in FilteredControls(controls, f) <==> ParseControlStatus(f.statusFilter) == Some(x.status))
  {
    MatchesSearchProperties(x.name, x.description, "");
    ParseNameRoundTrip(x.controlType, x.status);
  }
}
