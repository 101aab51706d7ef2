/** The task board: the tasks are filtered by the four filter settings,
    sorted by the chosen key and order, and shown in three columns by
    status, or as the empty view when nothing is left. */
module TaskBoard {
  import opened Options
  import opened Text
  import opened Calendar
  import opened Tasks
  import opened Seqs

  // ---------------------------------------------------------------------
  // Filtering

  /** A search matches a task when it is empty or occurs, ignoring case, in
      the title or the assignee. */
  predicate MatchesSearch(t: Task, search: String) {
    search == []
    || Contains(ToLower(t.title), ToLower(search))
    || Contains(ToLower(t.assignee), ToLower(search))
  }

  /** The filter predicate: each filter that is set must hold. */
  predicate Matches(f: FilterState, t: Task) {
    MatchesSearch(t, f.search)
    && (f.assignee == [] || t.assignee == f.assignee)
    && (f.priority == [] || PriorityName(t.priority) == f.priority)
    && (f.status == [] || StatusName(t.status) == f.status)
  }

  function FilterTasks(tasks: seq<Task>, f: FilterState): (r: seq<Task>)
    ensures |r| <= |tasks|
    ensures forall k :: 0 <= k < |r| ==> Matches(f, r[k]) && r[k] in tasks
    ensures forall k :: 0 <= k < |tasks| && Matches(f, tasks[k]) ==> tasks[k] in r
  {
    Filter(tasks, (t: Task) => Matches(f, t))
  }

  /** With the default settings no filter is set and every task is kept,
      in its order. */
  lemma DefaultFiltersKeepAll(tasks: seq<Task>)
    ensures FilterTasks(tasks, DefaultFilters) == tasks
  {
    FilterKeepsAll(tasks, t => Matches(DefaultFilters, t));
  }

  /** The filtered list of a concatenation is the concatenation of the
      filtered parts: filtering keeps the tasks' order. */
  lemma FilterKeepsOrder(xs: seq<Task>, ys: seq<Task>, f: FilterState)
    ensures FilterTasks(xs + ys, f) == FilterTasks(xs, f) + FilterTasks(ys, f)
  {
    FilterAppend(xs, ys, t => Matches(f, t));
  }

  /** The search ignores case: two searches that lower-case alike match
      the same tasks. */
  lemma SearchIgnoresCase(t: Task, a: String, b: String)
    requires ToLower(a) == ToLower(b)
    ensures MatchesSearch(t, a) <==> MatchesSearch(t, b)
  {
    assert |a| == |ToLower(a)| == |ToLower(b)| == |b|;
  }

  // ---------------------------------------------------------------------
  // The comparator

  /** `localeCompare`, as the order of character codes: negative, zero or
      positive. */
  function StrCompare(a: String, b: String): (c: int)
    ensures -1 <= c <= 1
    ensures c == 0 <==> a == b
    decreases |a|
  {
    if a == [] && b == [] then 0
    else if a == [] then -1
    else if b == [] then 1
    else if a[0] < b[0] then -1
    else if a[0] > b[0] then 1
    else
      var c := StrCompare(a[1..], b[1..]);
      assert c == 0 ==> a == [a[0]] + a[1..] == [b[0]] + b[1..] == b;
      c
  }

  lemma {:induction false} StrCompareAntisymmetric(a: String, b: String)
    ensures StrCompare(a, b) == -StrCompare(b, a)
    decreases |a|
  {
    if a != [] && b != [] && a[0] == b[0] {
      StrCompareAntisymmetric(a[1..], b[1..]);
    }
  }

  lemma {:induction false} StrCompareTransitive(a: String, b: String, c: String)
    requires StrCompare(a, b) <= 0 && StrCompare(b, c) <= 0
    ensures StrCompare(a, c) <= 0
    decreases |a|
  {
    if a != [] && b != [] && c != [] && a[0] == b[0] && b[0] == c[0] {
      StrCompareTransitive(a[1..], b[1..], c[1..]);
    }
  }

  /** `priorityOrder`: P1 first. */
  function Rank(p: Priority): int {
    match p
    case P1 => 1
    case P2 => 2
    case P3 => 3
    case P4 => 4
  }

  /** Due dates compare by time, and a task without one comes after every
      task with one. */
  function DueCompare(a: Option<Millis>, b: Option<Millis>): int {
    if a.None? && b.None? then 0
    else if a.None? then 1
    else if b.None? then -1
    else a.value - b.value
  }

  /** The comparison for the chosen key, before the order is applied; a key
      the switch does not name compares everything as equal. */
  function KeyCompare(a: Task, b: Task, sortBy: String): int {
    if sortBy == "dueDate" then DueCompare(a.dueDate, b.dueDate)
    else if sortBy == "priority" then Rank(a.priority) - Rank(b.priority)
    else if sortBy == "assignee" then StrCompare(a.assignee, b.assignee)
    else if sortBy == "createdAt" then a.createdAt - b.createdAt
    else 0
  }

  /** The comparator handed to `sort`: `desc` negates the comparison. */
  function Compare(a: Task, b: Task, f: FilterState): int {
    var c := KeyCompare(a, b, f.sortBy);
    if f.sortOrder == "desc" then -c else c
  }

  /** Swapping the arguments negates the comparison, for every key and
      order. */
  lemma CompareAntisymmetric(a: Task, b: Task, f: FilterState)
    ensures Compare(a, b, f) == -Compare(b, a, f)
  {
    StrCompareAntisymmetric(a.assignee, b.assignee);
  }

  lemma KeyCompareTransitive(a: Task, b: Task, c: Task, sortBy: String)
    requires KeyCompare(a, b, sortBy) <= 0 && KeyCompare(b, c, sortBy) <= 0
    ensures KeyCompare(a, c, sortBy) <= 0
  {
    if sortBy == "assignee" {
      StrCompareTransitive(a.assignee, b.assignee, c.assignee);
    }
  }

  /** "Not after" is transitive for every key and order: the comparator is
      a consistent one, so a sorted order exists. */
  lemma CompareTransitive(a: Task, b: Task, c: Task, f: FilterState)
    requires Compare(a, b, f) <= 0 && Compare(b, c, f) <= 0
    ensures Compare(a, c, f) <= 0
  {
    if f.sortOrder == "desc" {
      CompareAntisymmetric(a, b, f);
      CompareAntisymmetric(b, c, f);
      CompareAntisymmetric(a, c, f);
      assert KeyCompare(c, b, f.sortBy) <= 0 && KeyCompare(b, a, f.sortBy) <= 0 by {
        StrCompareAntisymmetric(a.assignee, b.assignee);
        StrCompareAntisymmetric(b.assignee, c.assignee);
      }
      KeyCompareTransitive(c, b, a, f.sortBy);
      StrCompareAntisymmetric(a.assignee, c.assignee);
    } else {
      KeyCompareTransitive(a, b, c, f.sortBy);
    }
  }

  // ---------------------------------------------------------------------
  // Sorting

  predicate SortedBy(xs: seq<Task>, f: FilterState) {
    forall i, j :: 0 <= i < j < |xs| ==> Compare(xs[i], xs[j], f) <= 0
  }

  lemma SortedAt(xs: seq<Task>, f: FilterState, i: nat, j: nat)
    requires SortedBy(xs, f) && i < j < |xs|
    ensures Compare(xs[i], xs[j], f) <= 0
  { }

  /** x placed before the first element it does not come after. */
  function Insert(x: Task, ys: seq<Task>, f: FilterState): (r: seq<Task>)
    requires SortedBy(ys, f)
    ensures multiset(r) == multiset(ys) + multiset{x}
    ensures SortedBy(r, f)
    decreases |ys|
  {
    if ys == [] || Compare(x, ys[0], f) <= 0 then
      InsertFront(x, ys, f);
      [x] + ys
    else
      var rest := Insert(x, ys[1..], f);
      CompareAntisymmetric(x, ys[0], f);
      assert ys == [ys[0]] + ys[1..];
      InsertBehind(ys[0], rest, ys[1..], x, f);
      [ys[0]] + rest
  }

  lemma InsertFront(x: Task, ys: seq<Task>, f: FilterState)
    requires SortedBy(ys, f) && (ys == [] || Compare(x, ys[0], f) <= 0)
    ensures SortedBy([x] + ys, f)
  {
    var r := [x] + ys;
    forall i, j | 0 <= i < j < |r| ensures Compare(r[i], r[j], f) <= 0 {
      if i == 0 && j > 1 {
        CompareTransitive(x, ys[0], ys[j - 1], f);
      }
    }
  }

  lemma InsertBehind(y: Task, rest: seq<Task>, ys: seq<Task>, x: Task, f: FilterState)
    requires SortedBy(rest, f) && SortedBy([y] + ys, f) && Compare(y, x, f) <= 0
    requires multiset(rest) == multiset(ys) + multiset{x}
    ensures SortedBy([y] + rest, f)
  {
    var r := [y] + rest;
    forall i, j | 0 <= i < j < |r| ensures Compare(r[i], r[j], f) <= 0 {
      if i == 0 {
        assert r[i] == y && r[j] == rest[j - 1];
        var z := rest[j - 1];
        assert z in multiset(rest);
        if z != x {
          assert z in multiset(ys);
          var k :| 0 <= k < |ys| && ys[k] == z;
          assert ([y] + ys)[k + 1] == z && ([y] + ys)[0] == y;
          SortedAt([y] + ys, f, 0, k + 1);
        }
      } else {
        SortedAt(rest, f, i - 1, j - 1);
      }
    }
  }

  /** `[...filteredTasks].sort(comparator)`: a stable insertion sort, which
      is the order a stable sort gives for this comparator. */
  function Sort(xs: seq<Task>, f: FilterState): (r: seq<Task>)
    ensures multiset(r) == multiset(xs)
    ensures SortedBy(r, f)
    decreases |xs|
  {
    if xs == [] then []
    else
      var sorted := Sort(xs[1..], f);
      assert multiset(xs) == multiset(sorted) + multiset{xs[0]} by {
        assert xs == [xs[0]] + xs[1..];
      }
      Insert(xs[0], sorted, f)
  }

  /** The list the board shows before grouping. */
  function SortedTasks(tasks: seq<Task>, f: FilterState): seq<Task> {
    Sort(FilterTasks(tasks, f), f)
  }

  /** Sorted by due date ascending: the dated tasks come first, by time,
      and the undated ones last. */
  lemma DueDateAscending(tasks: seq<Task>, f: FilterState, i: nat, j: nat)
    requires f.sortBy == "dueDate" && f.sortOrder != "desc"
    requires i < j < |SortedTasks(tasks, f)|
    ensures var r := SortedTasks(tasks, f);
      r[j].dueDate.Some? ==> r[i].dueDate.Some? && r[i].dueDate.value <= r[j].dueDate.value
  {
    var r := SortedTasks(tasks, f);
    assert Compare(r[i], r[j], f) <= 0;
  }

  /** Sorted by priority: P1 to P4 ascending, P4 to P1 descending. */
  lemma PriorityOrder(tasks: seq<Task>, f: FilterState, i: nat, j: nat)
    requires f.sortBy == "priority"
    requires i < j < |SortedTasks(tasks, f)|
    ensures var r := SortedTasks(tasks, f);
      if f.sortOrder == "desc" then Rank(r[i].priority) >= Rank(r[j].priority)
      else Rank(r[i].priority) <= Rank(r[j].priority)
  {
    var r := SortedTasks(tasks, f);
    assert Compare(r[i], r[j], f) <= 0;
  }

  /** The sorted list holds exactly the filtered tasks, each as often. */
  lemma SortedIsFiltered(tasks: seq<Task>, f: FilterState, t: Task)
    ensures t in SortedTasks(tasks, f) <==> t in tasks && Matches(f, t)
  {
    var ft := FilterTasks(tasks, f);
    assert t in SortedTasks(tasks, f) <==> t in multiset(ft);
    if t in tasks && Matches(f, t) {
      var k :| 0 <= k < |tasks| && tasks[k] == t;
    }
    if t in ft {
      var k :| 0 <= k < |ft| && ft[k] == t;
    }
  }

  // ---------------------------------------------------------------------
  // Columns

  /** The column of one status, in the sorted order. */
  function Column(sorted: seq<Task>, s: Status): (r: seq<Task>)
    ensures forall k :: 0 <= k < |r| ==> r[k].status == s
  {
    Filter(sorted, InStatus(s))
  }

  /** The three columns share out the sorted list: every task lies in the
      column of its status, as often as in the list. */
  lemma ColumnsPartition(sorted: seq<Task>)
    ensures multiset(Column(sorted, Pending)) + multiset(Column(sorted, InProgress))
              + multiset(Column(sorted, Completed)) == multiset(sorted)
    ensures |Column(sorted, Pending)| + |Column(sorted, InProgress)| + |Column(sorted, Completed)| == |sorted|
  {
    var m := multiset(Column(sorted, Pending)) + multiset(Column(sorted, InProgress))
               + multiset(Column(sorted, Completed));
    forall x: Task ensures m[x] == multiset(sorted)[x] {
      FilterMultiset(sorted, InStatus(Pending), x);
      FilterMultiset(sorted, InStatus(InProgress), x);
      FilterMultiset(sorted, InStatus(Completed), x);
    }
    assert m == multiset(sorted);
  }

  function Before(f: FilterState): (Task, Task) -> bool {
    (a: Task, b: Task) => Compare(a, b, f) <= 0
  }

  /** Each column keeps the sorted order. */
  lemma ColumnSorted(sorted: seq<Task>, s: Status, f: FilterState)
    requires SortedBy(sorted, f)
    ensures SortedBy(Column(sorted, s), f)
  {
    assert Pairwise(sorted, Before(f));
    FilterPairwise(sorted, InStatus(s), Before(f));
    var c := Column(sorted, s);
    assert forall i, j :: 0 <= i < j < |c| ==> Before(f)(c[i], c[j]);
  }

  /** The board shows the empty view exactly when no task passes the
      filters. */
  lemma EmptyViewIffNoMatch(tasks: seq<Task>, f: FilterState)
    ensures |SortedTasks(tasks, f)| == 0 <==> forall k :: 0 <= k < |tasks| ==> !Matches(f, tasks[k])
  {
    if |SortedTasks(tasks, f)| == 0 {
      forall k | 0 <= k < |tasks| ensures !Matches(f, tasks[k]) {
        SortedIsFiltered(tasks, f, tasks[k]);
      }
    }
  }

  /** The empty view's `hasFilters`: some setting holds a value other than
      "", "dueDate" and "asc". A search for exactly "asc" or "dueDate"
      therefore does not count as a filter. */
  predicate SetValue(v: String) { v != "" && v != "dueDate" && v != "asc" }

  predicate HasFilters(f: FilterState) {
    SetValue(f.search) || SetValue(f.assignee) || SetValue(f.priority) || SetValue(f.status)
    || SetValue(f.sortBy) || SetValue(f.sortOrder)
  }

  /** The default settings count as no filter; any of the select values
      for priority or status, a non-default sort key or the `desc` order
      counts. */
  lemma HasFiltersCases(f: FilterState, p: Priority, s: Status)
    ensures !HasFilters(DefaultFilters)
    ensures f.priority == PriorityName(p) ==> HasFilters(f)
    ensures f.status == StatusName(s) ==> HasFilters(f)
    ensures f.sortBy in ["priority", "assignee", "createdAt"] ==> HasFilters(f)
    ensures f.sortOrder == "desc" ==> HasFilters(f)
  {
    if f.status == StatusName(s) {
      assert |StatusName(s)| > 5;
    }
  }
}
