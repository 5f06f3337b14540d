/**
  The filter record of components/task-filters.tsx and the ways the bar
  changes it: single-field updates, clearing, the "active" test behind the
  Clear button, the sort-order toggle and the due-date select.
 */
module TaskFilterBar {
  import opened Base

  datatype Status = AnyStatus | PendingStatus | CompletedStatus

  datatype PriorityChoice = AnyPriority | HighChoice | MediumChoice | LowChoice

  datatype SortBy = ByDate | ByTitle | ByPriority | ByCreated

  datatype SortOrder = Asc | Desc

  /** A due-date range as the two date strings of the form. */
  datatype DateRange = DateRange(from: string, to: string)

  /** The `TaskFilters` record. */
  datatype Filters = Filters(
    status: Status,
    priority: PriorityChoice,
    sortBy: SortBy,
    sortOrder: SortOrder,
    searchQuery: string,
    hasDueDate: Option<bool>,
    tags: seq<string>,
    dueDateRange: Option<DateRange>)

  /** The record `clearFilters` emits. */
  const Cleared: Filters := Filters(AnyStatus, AnyPriority, ByDate, Desc, "", None, [], None)

  /** The eight keys of the record. */
  datatype Key = StatusKey | PriorityKey | SortByKey | SortOrderKey | SearchKey | DueDateKey | TagsKey | RangeKey

  /** `updateFilter(key, value)`: a key paired with a value of that key's type. */
  datatype Update =
    | SetStatus(status: Status)
    | SetPriority(priority: PriorityChoice)
    | SetSortBy(sortBy: SortBy)
    | SetSortOrder(sortOrder: SortOrder)
    | SetSearch(query: string)
    | SetHasDueDate(hasDueDate: Option<bool>)
    | SetTags(tags: seq<string>)
    | SetRange(range: Option<DateRange>)

  function KeyOf(u: Update): Key
  {
    match u
    case SetStatus(_) => StatusKey
    case SetPriority(_) => PriorityKey
    case SetSortBy(_) => SortByKey
    case SetSortOrder(_) => SortOrderKey
    case SetSearch(_) => SearchKey
    case SetHasDueDate(_) => DueDateKey
    case SetTags(_) => TagsKey
    case SetRange(_) => RangeKey
  }

  /** `g` agrees with `f` on every key except possibly `k`. */
  predicate SameExcept(f: Filters, g: Filters, k: Key)
  {
    && (k != StatusKey ==> g.status == f.status)
    && (k != PriorityKey ==> g.priority == f.priority)
    && (k != SortByKey ==> g.sortBy == f.sortBy)
    && (k != SortOrderKey ==> g.sortOrder == f.sortOrder)
    && (k != SearchKey ==> g.searchQuery == f.searchQuery)
    && (k != DueDateKey ==> g.hasDueDate == f.hasDueDate)
    && (k != TagsKey ==> g.tags == f.tags)
    && (k != RangeKey ==> g.dueDateRange == f.dueDateRange)
  }

  /** The record holds the value the update carries. */
  predicate Holds(f: Filters, u: Update)
  {
    match u
    case SetStatus(s) => f.status == s
    case SetPriority(p) => f.priority == p
    case SetSortBy(b) => f.sortBy == b
    case SetSortOrder(o) => f.sortOrder == o
    case SetSearch(q) => f.searchQuery == q
    case SetHasDueDate(d) => f.hasDueDate == d
    case SetTags(t) => f.tags == t
    case SetRange(r) => f.dueDateRange == r
  }

  /** `{ ...filters, [key]: value }`. */
  function UpdateFilter(f: Filters, u: Update): (r: Filters)
    ensures Holds(r, u)
    ensures SameExcept(f, r, KeyOf(u))
  {
    match u
    case SetStatus(s) => f.(status := s)
    case SetPriority(p) => f.(priority := p)
    case SetSortBy(b) => f.(sortBy := b)
    case SetSortOrder(o) => f.(sortOrder := o)
    case SetSearch(q) => f.(searchQuery := q)
    case SetHasDueDate(d) => f.(hasDueDate := d)
    case SetTags(t) => f.(tags := t)
    case SetRange(r) => f.(dueDateRange := r)
  }

  /** A record is determined by the value at one key and the values at all others. */
  lemma SameExceptAndHolds(f: Filters, g: Filters, u: Update)
    requires SameExcept(f, g, KeyOf(u)) && Holds(g, u) && Holds(f, u)
    ensures f == g
  {
  }

  /** Updating with the same value again changes nothing. */
  lemma UpdateIdempotent(f: Filters, u: Update)
    ensures UpdateFilter(UpdateFilter(f, u), u) == UpdateFilter(f, u)
  {
    SameExceptAndHolds(UpdateFilter(f, u), UpdateFilter(UpdateFilter(f, u), u), u);
  }

  /** Updates of two different keys commute. */
  lemma UpdatesCommute(f: Filters, u: Update, v: Update)
    requires KeyOf(u) != KeyOf(v)
    ensures UpdateFilter(UpdateFilter(f, u), v) == UpdateFilter(UpdateFilter(f, v), u)
  {
  }

  /** `hasActiveFilters`: some narrowing field differs from its cleared value (an empty query is falsy). */
  predicate HasActiveFilters(f: Filters)
  {
    f.status != AnyStatus || f.priority != AnyPriority || f.searchQuery != "" ||
    f.hasDueDate.Some? || f.dueDateRange.Some? || |f.tags| > 0
  }

  /**
    The filters are active exactly when the record differs from the cleared
    one in a field other than the two sort fields.
   */
  lemma ActiveIffNotCleared(f: Filters)
    ensures HasActiveFilters(f) <==> f.(sortBy := ByDate, sortOrder := Desc) != Cleared
    ensures !HasActiveFilters(Cleared)
  {
    if f.(sortBy := ByDate, sortOrder := Desc) == Cleared {
      assert f.tags == [];
    }
  }

  /** Changing only the sort field or the sort order never shows or hides the Clear button. */
  lemma SortingIsNotFiltering(f: Filters, u: Update)
    requires KeyOf(u) == SortByKey || KeyOf(u) == SortOrderKey
    ensures HasActiveFilters(UpdateFilter(f, u)) == HasActiveFilters(f)
  {
  }

  /** The sort-order button. */
  function ToggleOrder(o: SortOrder): (r: SortOrder)
    ensures r != o
  {
    if o == Asc then Desc else Asc
  }

  lemma ToggleOrderInvolution(o: SortOrder)
    ensures ToggleOrder(ToggleOrder(o)) == o
  {
  }

  /** The due-date select's value for the current `hasDueDate`. */
  function DueDateValue(d: Option<bool>): (s: string)
    ensures s in {"all", "yes", "no"}
  {
    match d
    case None => "all"
    case Some(b) => if b then "yes" else "no"
  }

  /** `value === "all" ? null : value === "yes"`: any value but "all" and "yes" reads as `false`. */
  function ParseDueDateValue(s: string): (d: Option<bool>)
    ensures d.None? <==> s == "all"
    ensures d == Some(true) <==> s == "yes"
  {
    if s == "all" then None else Some(s == "yes")
  }

  /** The select shows what it was set to, for each of the three states. */
  lemma DueDateRoundTrip(d: Option<bool>)
    ensures ParseDueDateValue(DueDateValue(d)) == d
  {
  }

  /** And each of the three option values survives the trip the other way. */
  lemma DueDateValueRoundTrip(s: string)
    requires s in {"all", "yes", "no"}
    ensures DueDateValue(ParseDueDateValue(s)) == s
  {
  }
}
