/** The analytics panel: counts per status, the overdue count, the
    completion rate, the per-priority chart and the per-assignee chart. */
module TaskAnalytics {
  import opened Options
  import opened Text
  import opened Calendar
  import opened Tasks
  import opened Seqs
  import opened TaskStore

  // ---------------------------------------------------------------------
  // Status counts

  function StatusCount(tasks: seq<Task>, s: Status): nat {
    Count(tasks, InStatus(s))
  }

  /** Every task has one of the three statuses, so the three counts add up
      to the total. */
  lemma StatusCountsSum(tasks: seq<Task>)
    ensures StatusCount(tasks, Completed) + StatusCount(tasks, InProgress)
              + StatusCount(tasks, Pending) == |tasks|
  {
    var open := (t: Task) => t.status != Completed;
    CountUnion(tasks, InStatus(InProgress), InStatus(Pending), open);
    var any := (t: Task) => true;
    CountUnion(tasks, InStatus(Completed), open, any);
    CountAll(tasks, any);
  }

  function OverdueAt(now: Millis): Task -> bool {
    (t: Task) => IsOverdue(t, now)
  }

  function OverdueCount(tasks: seq<Task>, now: Millis): nat {
    Count(tasks, OverdueAt(now))
  }

  /** Only tasks that are not completed can be overdue. */
  lemma OverdueBound(tasks: seq<Task>, now: Millis)
    ensures OverdueCount(tasks, now) <= |tasks| - StatusCount(tasks, Completed)
  {
    var open := (t: Task) => t.status != Completed;
    CountMonotone(tasks, OverdueAt(now), open);
    var any := (t: Task) => true;
    CountUnion(tasks, InStatus(Completed), open, any);
    CountAll(tasks, any);
  }

  /** A task without a due date, or a completed one, is never among the
      overdue: adding it leaves the count as it was. */
  lemma OverdueIgnores(tasks: seq<Task>, t: Task, now: Millis)
    requires t.dueDate.None? || t.status == Completed
    ensures OverdueCount(tasks + [t], now) == OverdueCount(tasks, now)
  {
    FilterAppend(tasks, [t], OverdueAt(now));
  }

  // ---------------------------------------------------------------------
  // Completion rate

  /** Dividing both sides of a comparison by a positive factor. */
  lemma MulCancel(a: int, b: int, d: int)
    requires d > 0
    ensures a * d < b * d ==> a < b
    ensures a * d <= b * d ==> a <= b
  {
    if a > b {
      assert a * d - b * d == (a - b) * d;
      assert (a - b) * d >= d by {
        assert (a - b) * d == (a - b - 1) * d + d;
      }
    } else if a == b {
      assert a * d == b * d;
    }
  }

  /** `Math.round(completed / total * 100)`, or 0 without tasks: the
      percentage rounded to the nearest integer, halves rounded up. */
  function Percent(completed: nat, total: nat): (r: nat)
    requires completed <= total
    ensures total == 0 ==> r == 0
    ensures r <= 100
    ensures total > 0 ==> 2 * r * total <= 200 * completed + total < 2 * (r + 1) * total
  {
    if total == 0 then 0
    else
      var n := 200 * completed + total;
      var d := 2 * total;
      var r := n / d;
      assert r * d <= n < r * d + d;
      assert 2 * r * total == r * d && 2 * (r + 1) * total == r * d + d;
      assert n < 101 * d;
      MulCancel(r, 101, d);
      r
  }

  function CompletionRate(tasks: seq<Task>): (r: nat)
    ensures r <= 100
  {
    StatusCountsSum(tasks);
    Percent(StatusCount(tasks, Completed), |tasks|)
  }

  /** All tasks completed gives 100, none completed gives 0. */
  lemma CompletionRateEnds(tasks: seq<Task>)
    ensures StatusCount(tasks, Completed) == 0 ==> CompletionRate(tasks) == 0
    ensures tasks != [] && StatusCount(tasks, Completed) == |tasks| ==> CompletionRate(tasks) == 100
  {
    StatusCountsSum(tasks);
    var c := StatusCount(tasks, Completed);
    var t := |tasks|;
    var r := CompletionRate(tasks);
    if t > 0 {
      assert 2 * r * t <= 200 * c + t < 2 * (r + 1) * t;
      if c == 0 {
        assert (2 * r) * t <= 1 * t;
        MulCancel(2 * r, 1, t);
      }
      if c == t {
        assert 201 * t < (2 * (r + 1)) * t;
        MulCancel(201, 2 * (r + 1), t);
      }
    }
  }

  // ---------------------------------------------------------------------
  // The priority chart

  datatype Slice = Slice(level: Priority, value: nat)

  function Rank(p: Priority): nat {
    match p
    case P1 => 0
    case P2 => 1
    case P3 => 2
    case P4 => 3
  }

  function LevelCount(tasks: seq<Task>, p: Priority): nat {
    Count(tasks, AtLevel(p))
  }

  function Positive(): Slice -> bool {
    (e: Slice) => e.value > 0
  }

  /** The four slices before the empty ones are dropped. */
  function AllSlices(tasks: seq<Task>): seq<Slice> {
    [Slice(P1, LevelCount(tasks, P1)), Slice(P2, LevelCount(tasks, P2)),
     Slice(P3, LevelCount(tasks, P3)), Slice(P4, LevelCount(tasks, P4))]
  }

  /** `priorityData`: the levels that occur, P1 to P4, with their counts. */
  function PriorityData(tasks: seq<Task>): (r: seq<Slice>)
    ensures forall i :: 0 <= i < |r| ==> r[i].value > 0 && r[i].value == LevelCount(tasks, r[i].level)
    ensures forall i, j :: 0 <= i < j < |r| ==> Rank(r[i].level) < Rank(r[j].level)
    ensures forall p :: LevelCount(tasks, p) > 0 ==> exists i :: 0 <= i < |r| && r[i].level == p
  {
    var all := AllSlices(tasks);
    var r := Filter(all, Positive());
    FilterPairwise(all, Positive(), RankBefore());
    forall p | LevelCount(tasks, p) > 0 ensures exists i :: 0 <= i < |r| && r[i].level == p {
      assert all[Rank(p)] in r;
    }
    r
  }

  function RankBefore(): (Slice, Slice) -> bool {
    (a: Slice, b: Slice) => Rank(a.level) < Rank(b.level)
  }

  function Total(es: seq<Slice>): nat {
    if es == [] then 0 else es[0].value + Total(es[1..])
  }

  /** Dropping the empty slices keeps the sum. */
  lemma {:induction false} TotalPositive(es: seq<Slice>)
    ensures Total(Filter(es, Positive())) == Total(es)
    decreases |es|
  {
    if es != [] {
      TotalPositive(es[1..]);
      var rest := Filter(es[1..], Positive());
      if es[0].value > 0 {
        assert Filter(es, Positive()) == [es[0]] + rest;
        assert ([es[0]] + rest)[1..] == rest;
      } else {
        assert Filter(es, Positive()) == [] + rest == rest;
      }
    }
  }

  lemma TotalOfFour(es: seq<Slice>)
    requires |es| == 4
    ensures Total(es) == es[0].value + es[1].value + es[2].value + es[3].value
  {
    var e1 := es[1..];
    var e2 := e1[1..];
    var e3 := e2[1..];
    assert e3[1..] == [];
    assert Total(e3) == es[3].value;
    assert Total(e2) == es[2].value + Total(e3);
    assert Total(e1) == es[1].value + Total(e2);
  }

  /** The chart's values add up to the number of tasks. */
  lemma PriorityDataTotal(tasks: seq<Task>)
    ensures Total(PriorityData(tasks)) == |tasks|
  {
    TotalPositive(AllSlices(tasks));
    TotalOfFour(AllSlices(tasks));
    var low := (t: Task) => t.priority == P1 || t.priority == P2;
    var high := (t: Task) => t.priority == P3 || t.priority == P4;
    var any := (t: Task) => true;
    CountUnion(tasks, AtLevel(P1), AtLevel(P2), low);
    CountUnion(tasks, AtLevel(P3), AtLevel(P4), high);
    CountUnion(tasks, low, high, any);
    CountAll(tasks, any);
  }

  // ---------------------------------------------------------------------
  // The assignee chart

  function AssignedTo(a: String): Task -> bool {
    (t: Task) => t.assignee == a
  }

  function Assigned(): Task -> bool {
    (t: Task) => t.assignee != []
  }

  function AssigneeCount(tasks: seq<Task>, a: String): nat {
    Count(tasks, AssignedTo(a))
  }

  /** Each name with the number of tasks assigned to it. */
  function CountsFor(names: seq<String>, tasks: seq<Task>): (r: seq<(String, nat)>)
    ensures |r| == |names|
    ensures forall i :: 0 <= i < |r| ==> r[i] == (names[i], AssigneeCount(tasks, names[i]))
  {
    if names == [] then [] else [(names[0], AssigneeCount(tasks, names[0]))] + CountsFor(names[1..], tasks)
  }

  /** `assigneeData`: one entry per distinct non-empty assignee, in the
      order the map first saw it, with its count. */
  function AssigneeData(tasks: seq<Task>): seq<(String, nat)> {
    CountsFor(UniqueAssignees(tasks), tasks)
  }

  /** Every entry names a distinct non-empty assignee that some task
      carries, with a positive count. */
  lemma AssigneeDataEntries(tasks: seq<Task>, i: nat, j: nat)
    requires i < |AssigneeData(tasks)| && j < |AssigneeData(tasks)|
    ensures AssigneeData(tasks)[i].0 != [] && AssigneeData(tasks)[i].1 > 0
    ensures i != j ==> AssigneeData(tasks)[i].0 != AssigneeData(tasks)[j].0
  {
    var names := UniqueAssignees(tasks);
    var k :| 0 <= k < |tasks| && tasks[k].assignee == names[i];
    assert tasks[k] in Filter(tasks, AssignedTo(names[i]));
  }

  function SumCounts(es: seq<(String, nat)>): nat {
    if es == [] then 0 else es[0].1 + SumCounts(es[1..])
  }

  /** The number of positions naming a. */
  function Hits(names: seq<String>, a: String): nat {
    if names == [] then 0 else (if names[0] == a then 1 else 0) + Hits(names[1..], a)
  }

  lemma {:induction false} HitsDistinct(names: seq<String>, a: String)
    requires forall i, j :: 0 <= i < j < |names| ==> names[i] != names[j]
    ensures Hits(names, a) == if a in names then 1 else 0
    decreases |names|
  {
    if names != [] {
      HitsDistinct(names[1..], a);
      if names[0] == a {
        assert a !in names[1..] by {
          forall k | 0 <= k < |names[1..]| ensures names[1..][k] != a {
            assert names[k + 1] != names[0];
          }
        }
      }
    }
  }

  /** One more task adds one to the count of every position naming its
      assignee. */
  lemma {:induction false} SumCountsStep(names: seq<String>, tasks: seq<Task>, t: Task)
    ensures SumCounts(CountsFor(names, tasks + [t])) == SumCounts(CountsFor(names, tasks)) + Hits(names, t.assignee)
    decreases |names|
  {
    if names != [] {
      SumCountsStep(names[1..], tasks, t);
      FilterAppend(tasks, [t], AssignedTo(names[0]));
      assert CountsFor(names, tasks + [t])[1..] == CountsFor(names[1..], tasks + [t]);
      assert CountsFor(names, tasks)[1..] == CountsFor(names[1..], tasks);
    }
  }

  /** Over distinct non-empty names that cover every assignee, the counts
      add up to the number of assigned tasks. */
  lemma {:induction false} SumCountsCover(names: seq<String>, tasks: seq<Task>)
    requires forall i, j :: 0 <= i < j < |names| ==> names[i] != names[j]
    requires forall i :: 0 <= i < |names| ==> names[i] != []
    requires forall k :: 0 <= k < |tasks| && tasks[k].assignee != [] ==> tasks[k].assignee in names
    ensures SumCounts(CountsFor(names, tasks)) == Count(tasks, Assigned())
    decreases |tasks|
  {
    if tasks == [] {
      ZeroCounts(names);
    } else {
      var init := tasks[..|tasks| - 1];
      var t := tasks[|tasks| - 1];
      assert tasks == init + [t];
      SumCountsCover(names, init);
      SumCountsStep(names, init, t);
      HitsDistinct(names, t.assignee);
      FilterAppend(init, [t], Assigned());
    }
  }

  lemma {:induction false} ZeroCounts(names: seq<String>)
    ensures SumCounts(CountsFor(names, [])) == 0
    decreases |names|
  {
    if names != [] {
      ZeroCounts(names[1..]);
      assert CountsFor(names, [])[1..] == CountsFor(names[1..], []);
    }
  }

  /** The assignee chart's counts add up to the number of tasks that have
      an assignee. */
  lemma AssigneeDataTotal(tasks: seq<Task>)
    ensures SumCounts(AssigneeData(tasks)) == Count(tasks, Assigned())
  {
    forall k | 0 <= k < |tasks| && tasks[k].assignee != [] ensures tasks[k].assignee in UniqueAssignees(tasks) {
      AssigneeOffered(tasks, k);
    }
    SumCountsCover(UniqueAssignees(tasks), tasks);
  }

  /** Adding one to a's entry in the accumulator, or starting it at 1. */
  function Bump(counts: map<String, nat>, a: String): map<String, nat> {
    counts[a := (if a in counts then counts[a] else 0) + 1]
  }

  /** The accumulator after the tasks of prefix: the names in the order
      the map first saw them, each with its count. */
  ghost predicate Accumulated(prefix: seq<Task>, names: seq<String>, counts: map<String, nat>) {
    names == UniqueAssignees(prefix)
    && (forall a :: a in counts <==> a in names)
    && (forall a :: a in counts ==> counts[a] == AssigneeCount(prefix, a))
  }

  /** The assignee list grows by a task's assignee when it is new and not
      empty. */
  lemma UniqueStep(prefix: seq<Task>, t: Task)
    ensures UniqueAssignees(prefix + [t]) ==
      if t.assignee == [] || t.assignee in UniqueAssignees(prefix) then UniqueAssignees(prefix)
      else UniqueAssignees(prefix) + [t.assignee]
  {
    var next := prefix + [t];
    assert next[..|next| - 1] == prefix;
  }

  lemma CountStep(prefix: seq<Task>, t: Task, a: String)
    ensures AssigneeCount(prefix + [t], a) == AssigneeCount(prefix, a) + (if t.assignee == a then 1 else 0)
  {
    FilterAppend(prefix, [t], AssignedTo(a));
  }

  /** One step of the `reduce`: a task with an assignee bumps its count,
      a new name joining the map's order. */
  lemma AccumulateStep(prefix: seq<Task>, t: Task, names: seq<String>, counts: map<String, nat>)
    requires Accumulated(prefix, names, counts)
    ensures t.assignee == [] ==> Accumulated(prefix + [t], names, counts)
    ensures t.assignee != [] ==> Accumulated(prefix + [t], if t.assignee in counts then names else names + [t.assignee], Bump(counts, t.assignee))
  {
    if t.assignee == [] {
      UniqueStep(prefix, t);
      forall a | a in counts ensures counts[a] == AssigneeCount(prefix + [t], a) {
        CountStep(prefix, t, a);
      }
    } else {
      AccumulateBump(prefix, t, names, counts);
    }
  }

  lemma AccumulateBump(prefix: seq<Task>, t: Task, names: seq<String>, counts: map<String, nat>)
    requires Accumulated(prefix, names, counts) && t.assignee != []
    ensures Accumulated(prefix + [t], if t.assignee in counts then names else names + [t.assignee], Bump(counts, t.assignee))
  {
    var x := t.assignee;
    var names' := if x in counts then names else names + [x];
    var counts' := Bump(counts, x);
    UniqueStep(prefix, t);
    assert names' == UniqueAssignees(prefix + [t]);
    assert forall a :: a in counts' <==> a in names';
    if x !in counts {
      NotOfferedCount(prefix, x);
    }
    var before := if x in counts then counts[x] else 0;
    assert before == AssigneeCount(prefix, x);
    forall a | a in counts' ensures counts'[a] == AssigneeCount(prefix + [t], a) {
      CountStep(prefix, t, a);
      if a == x {
        assert counts'[a] == before + 1;
      } else {
        assert counts'[a] == counts[a];
      }
    }
    assert Accumulated(prefix + [t], names', counts');
  }

  /** The `reduce` over the tasks with its `Map` accumulator, then
      `Array.from` in the map's insertion order. */
  method ComputeAssigneeData(tasks: seq<Task>) returns (data: seq<(String, nat)>)
    ensures data == AssigneeData(tasks)
  {
    var names: seq<String> := [];
    var counts: map<String, nat> := map[];
    for n := 0 to |tasks|
      invariant Accumulated(tasks[..n], names, counts)
    {
      var t := tasks[n];
      AccumulateStep(tasks[..n], t, names, counts);
      assert tasks[..n + 1] == tasks[..n] + [t];
      if t.assignee != [] {
        names := if t.assignee in counts then names else names + [t.assignee];
        counts := Bump(counts, t.assignee);
      }
    }
    assert tasks[..|tasks|] == tasks;
    data := seq(|names|, i requires 0 <= i < |names| => (names[i], counts[names[i]]));
    assert data == CountsFor(names, tasks);
  }

  /** A name the list does not offer belongs to no task. */
  lemma NotOfferedCount(tasks: seq<Task>, a: String)
    requires a != [] && a !in UniqueAssignees(tasks)
    ensures AssigneeCount(tasks, a) == 0
  {
    if AssigneeCount(tasks, a) > 0 {
      var r := Filter(tasks, AssignedTo(a));
      assert r[0] in tasks;
      var k :| 0 <= k < |tasks| && tasks[k] == r[0];
      AssigneeOffered(tasks, k);
    }
  }
}
