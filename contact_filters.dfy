/** components/contact-filters.tsx: the filter panel. The five filter texts
    live either in the parent (when it passes `filters` and `setFilters`, as
    contact-management.tsx does) or in the panel's own state. */
module ContactFilters {
  import opened Common

  datatype FilterState = FilterState(name: string, role: string, status: string, category: string, date: string)

  const EMPTY_FILTERS: FilterState := FilterState("", "", "", "", "")

  /** The filter a control writes: the `name` of an input, or the filter name
      passed by a select. */
  datatype FilterField = NameFilter | RoleFilter | StatusFilter | CategoryFilter | DateFilter

  function Field(f: FilterState, field: FilterField): string {
    match field
    case NameFilter => f.name
    case RoleFilter => f.role
    case StatusFilter => f.status
    case CategoryFilter => f.category
    case DateFilter => f.date
  }

  /** `{ ...prevFilters, [field]: value }` */
  function With(f: FilterState, field: FilterField, value: string): (r: FilterState)
    ensures Field(r, field) == value
    ensures forall other :: other != field ==> Field(r, other) == Field(f, other)
  {
    match field
    case NameFilter => f.(name := value)
    case RoleFilter => f.(role := value)
    case StatusFilter => f.(status := value)
    case CategoryFilter => f.(category := value)
    case DateFilter => f.(date := value)
  }

  /** A select stores "" for its "all" entry and any other value unchanged. */
  function SelectValue(value: string): (r: string)
    ensures value == "all" ==> r == ""
    ensures value != "all" ==> r == value
  {
    if value == "all" then "" else value
  }

  /** `hasActiveFilters` */
  predicate HasActiveFilters(f: FilterState) {
    f.name != "" || f.role != "" || f.status != "" || f.category != "" || f.date != ""
  }

  /** Filters are active exactly when some field is set; the empty filters are not. */
  lemma ActiveIffSomeField(f: FilterState)
    ensures HasActiveFilters(f) <==> exists field :: Field(f, field) != ""
    ensures !HasActiveFilters(EMPTY_FILTERS)
  {
    if HasActiveFilters(f) {
      if f.name != "" { assert Field(f, NameFilter) != ""; }
      else if f.role != "" { assert Field(f, RoleFilter) != ""; }
      else if f.status != "" { assert Field(f, StatusFilter) != ""; }
      else if f.category != "" { assert Field(f, CategoryFilter) != ""; }
      else { assert Field(f, DateFilter) != ""; }
    }
  }

  /** Choosing "all" in a select clears that filter and leaves the others. */
  lemma SelectAllClears(f: FilterState, field: FilterField)
    ensures Field(With(f, field, SelectValue("all")), field) == ""
    ensures !HasActiveFilters(f) ==> !HasActiveFilters(With(f, field, SelectValue("all")))
  {
    var r := With(f, field, SelectValue("all"));
    if HasActiveFilters(r) {
      ActiveIffSomeField(r);
      var g :| Field(r, g) != "";
      assert g != field;
      ActiveIffSomeField(f);
    }
  }

  class ContactFiltersView {
    /** The parent's filter state, when the parent owns it. */
    var parentFilters: Option<FilterState>
    var localFilters: FilterState
    /** Whether an `onFiltersChange` callback was passed. */
    const hasOnFiltersChange: bool
    /** The filters handed to `onFiltersChange`, in call order. */
    var forwarded: seq<FilterState>
    var open: bool

    /** `filters || localFilters` */
    function CurrentFilters(): FilterState
      reads this
    {
      match parentFilters
      case Some(f) => f
      case None => localFilters
    }

    /** The local state starts as a copy of the parent's filters, or empty. */
    constructor(parentFilters: Option<FilterState>, hasOnFiltersChange: bool)
      ensures this.parentFilters == parentFilters && this.hasOnFiltersChange == hasOnFiltersChange
      ensures localFilters == (match parentFilters case Some(f) => f case None => EMPTY_FILTERS)
      ensures forwarded == [] && !open
    {
      this.parentFilters := parentFilters;
      this.hasOnFiltersChange := hasOnFiltersChange;
      localFilters := match parentFilters case Some(f) => f case None => EMPTY_FILTERS;
      forwarded := [];
      open := false;
    }

    /** Writes one field into whichever state is in use. */
    method SetField(field: FilterField, value: string)
      modifies this
      ensures CurrentFilters() == With(old(CurrentFilters()), field, value)
      ensures parentFilters.Some? == old(parentFilters).Some?
      ensures old(parentFilters).Some? ==> localFilters == old(localFilters)
      ensures forwarded == old(forwarded) && open == old(open)
    {
      match parentFilters
      case Some(f) => parentFilters := Some(With(f, field, value));
      case None => localFilters := With(localFilters, field, value);
    }

    /** `handleInputChange`: only the named field changes. */
    method HandleInputChange(field: FilterField, value: string)
      modifies this
      ensures CurrentFilters() == With(old(CurrentFilters()), field, value)
      ensures parentFilters.Some? == old(parentFilters).Some?
      ensures forwarded == old(forwarded) && open == old(open)
    {
      SetField(field, value);
    }

    /** `handleSelectChange`: "all" is stored as "". */
    method HandleSelectChange(value: string, field: FilterField)
      modifies this
      ensures CurrentFilters() == With(old(CurrentFilters()), field, SelectValue(value))
      ensures parentFilters.Some? == old(parentFilters).Some?
      ensures forwarded == old(forwarded) && open == old(open)
    {
      SetField(field, if value == "all" then "" else value);
    }

    /** `applyFilters`: the current filters go to `onFiltersChange` only when it
        was passed; the panel closes either way. */
    method ApplyFilters()
      modifies this
      ensures hasOnFiltersChange ==> forwarded == old(forwarded) + [old(CurrentFilters())]
      ensures !hasOnFiltersChange ==> forwarded == old(forwarded)
      ensures parentFilters == old(parentFilters) && localFilters == old(localFilters)
      ensures !open
    {
      var filtersToApply := CurrentFilters();
      if hasOnFiltersChange {
        forwarded := forwarded + [filtersToApply];
      }
      open := false;
    }

    /** `resetFilters`: every field becomes "", the empty filters go to
        `onFiltersChange` when it was passed, and the panel closes. */
    method ResetFilters()
      modifies this
      ensures CurrentFilters() == EMPTY_FILTERS
      ensures !HasActiveFilters(CurrentFilters())
      ensures parentFilters.Some? == old(parentFilters).Some?
      ensures hasOnFiltersChange ==> forwarded == old(forwarded) + [EMPTY_FILTERS]
      ensures !hasOnFiltersChange ==> forwarded == old(forwarded)
      ensures !open
    {
      var emptyFilters := FilterState("", "", "", "", "");
      if parentFilters.Some? {
        parentFilters := Some(emptyFilters);
      } else {
        localFilters := emptyFilters;
      }
      if hasOnFiltersChange {
        forwarded := forwarded + [emptyFilters];
      }
      open := false;
    }
  }
}
