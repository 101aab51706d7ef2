/** The filter panel's operations on the board's settings: setting one
    key, resetting all of them, counting the active filters and flipping
    the sort order. Each returns a new settings value. */
module FilterPanel {
  import opened Text
  import opened Tasks
  import opened Seqs
  import opened TaskBoard

  /** The keys of the settings, in their declaration order. */
  datatype FilterKey = SearchKey | AssigneeKey | PriorityKey | StatusKey | SortByKey | SortOrderKey

  function Get(f: FilterState, k: FilterKey): String {
    match k
    case SearchKey => f.search
    case AssigneeKey => f.assignee
    case PriorityKey => f.priority
    case StatusKey => f.status
    case SortByKey => f.sortBy
    case SortOrderKey => f.sortOrder
  }

  /** `updateFilter(key, value)`: `{ ...filters, [key]: value }`. */
  function UpdateFilter(f: FilterState, k: FilterKey, v: String): (r: FilterState)
    ensures Get(r, k) == v
    ensures forall o :: o != k ==> Get(r, o) == Get(f, o)
  {
    match k
    case SearchKey => f.(search := v)
    case AssigneeKey => f.(assignee := v)
    case PriorityKey => f.(priority := v)
    case StatusKey => f.(status := v)
    case SortByKey => f.(sortBy := v)
    case SortOrderKey => f.(sortOrder := v)
  }

  /** Two settings values agree on every key exactly when they are equal. */
  lemma SameKeys(f: FilterState, g: FilterState)
    requires forall k :: Get(f, k) == Get(g, k)
    ensures f == g
  {
    assert Get(f, SearchKey) == Get(g, SearchKey) && Get(f, AssigneeKey) == Get(g, AssigneeKey);
    assert Get(f, PriorityKey) == Get(g, PriorityKey) && Get(f, StatusKey) == Get(g, StatusKey);
    assert Get(f, SortByKey) == Get(g, SortByKey) && Get(f, SortOrderKey) == Get(g, SortOrderKey);
  }

  /** Setting a key to the value it holds changes nothing; setting it twice
      keeps the last value; settings of different keys commute. */
  lemma UpdateFilterLaws(f: FilterState, k: FilterKey, j: FilterKey, v: String, w: String)
    ensures UpdateFilter(f, k, Get(f, k)) == f
    ensures UpdateFilter(UpdateFilter(f, k, v), k, w) == UpdateFilter(f, k, w)
    ensures k != j ==> UpdateFilter(UpdateFilter(f, k, v), j, w) == UpdateFilter(UpdateFilter(f, j, w), k, v)
  {
    SameKeys(UpdateFilter(f, k, Get(f, k)), f);
    SameKeys(UpdateFilter(UpdateFilter(f, k, v), k, w), UpdateFilter(f, k, w));
    if k != j {
      SameKeys(UpdateFilter(UpdateFilter(f, k, v), j, w), UpdateFilter(UpdateFilter(f, j, w), k, v));
    }
  }

  /** `resetFilters`: no filter, sorted by due date ascending. */
  function ResetFilters(): (r: FilterState)
    ensures forall k :: k != SortByKey && k != SortOrderKey ==> Get(r, k) == []
    ensures Get(r, SortByKey) == "dueDate" && Get(r, SortOrderKey) == "asc"
  {
    FilterState("", "", "", "", "dueDate", "asc")
  }

  /** Resetting gives the settings the page starts with, under which the
      board keeps every task and the empty view reports no filters. */
  lemma ResetIsDefault(tasks: seq<Task>)
    ensures ResetFilters() == DefaultFilters
    ensures FilterTasks(tasks, ResetFilters()) == tasks
    ensures !HasFilters(ResetFilters())
  {
    DefaultFiltersKeepAll(tasks);
    HasFiltersCases(DefaultFilters, P1, Pending);
  }

  /** `Object.entries(filters)`, in declaration order. */
  function Entries(f: FilterState): (r: seq<(FilterKey, String)>)
    ensures |r| == 6
    ensures forall i :: 0 <= i < 6 ==> r[i].1 == Get(f, r[i].0)
  {
    [(SearchKey, f.search), (AssigneeKey, f.assignee), (PriorityKey, f.priority),
     (StatusKey, f.status), (SortByKey, f.sortBy), (SortOrderKey, f.sortOrder)]
  }

  /** The entries that count as active filters: a value is set and the key
      is not the search or a sort setting. */
  function IsActive(): ((FilterKey, String)) -> bool {
    (e: (FilterKey, String)) => e.1 != "" && e.0 != SortByKey && e.0 != SortOrderKey && e.0 != SearchKey
  }

  function One(b: bool): nat { if b then 1 else 0 }

  /** `activeFiltersCount`. */
  function ActiveFiltersCount(f: FilterState): (n: nat)
    ensures n == One(f.assignee != "") + One(f.priority != "") + One(f.status != "")
    ensures n <= 3
  {
    var es := Entries(f);
    assert Filter(es[5..], IsActive()) == [];
    assert Filter(es[4..], IsActive()) == [];
    assert es[3..][1..] == es[4..] && es[2..][1..] == es[3..] && es[1..][1..] == es[2..];
    assert |Filter(es[3..], IsActive())| == One(f.status != "");
    assert |Filter(es[2..], IsActive())| == One(f.priority != "") + One(f.status != "");
    assert |Filter(es[1..], IsActive())| == One(f.assignee != "") + One(f.priority != "") + One(f.status != "");
    Count(es, IsActive())
  }

  /** With no active filter and no search, the board keeps every task. */
  lemma NoActiveFilterKeepsAll(f: FilterState, tasks: seq<Task>)
    requires ActiveFiltersCount(f) == 0 && f.search == ""
    ensures FilterTasks(tasks, f) == tasks
  {
    FilterKeepsAll(tasks, (t: Task) => Matches(f, t));
  }

  /** `toggleSortOrder`: `asc` becomes `desc` and anything else `asc`; the
      other settings stay. */
  function ToggleSortOrder(f: FilterState): (r: FilterState)
    ensures r.sortOrder == (if f.sortOrder == "asc" then "desc" else "asc")
    ensures forall k :: k != SortOrderKey ==> Get(r, k) == Get(f, k)
  {
    UpdateFilter(f, SortOrderKey, if f.sortOrder == "asc" then "desc" else "asc")
  }

  /** Toggling twice gives back an ascending or descending setting. */
  lemma ToggleTwice(f: FilterState)
    requires f.sortOrder == "asc" || f.sortOrder == "desc"
    ensures ToggleSortOrder(ToggleSortOrder(f)) == f
  {
    SameKeys(ToggleSortOrder(ToggleSortOrder(f)), f);
  }

  /** Toggling reverses every comparison the board sorts by. */
  lemma ToggleReverses(f: FilterState, a: Task, b: Task)
    requires f.sortOrder == "asc" || f.sortOrder == "desc"
    ensures Compare(a, b, ToggleSortOrder(f)) == -Compare(a, b, f)
  {
  }
}
