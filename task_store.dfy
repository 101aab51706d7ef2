/** The page's task list: adding one task or a batch, merging updates into
    the task with an id, deleting by id, and the list of assignees the
    filter offers. The clock readings `Date.now()` and `new Date()` are
    parameters. */
module TaskStore {
  import opened Options
  import opened Text
  import opened Calendar
  import opened Tasks
  import opened Seqs

  // ---------------------------------------------------------------------
  // Ids

  function DigitChar(d: nat): (c: char)
    requires d < 10
    ensures IsDigit(c) && DigitValue(c) == d
  {
    ('0' as int + d) as char
  }

  /** `n.toString()` for a non-negative integer: its decimal digits. */
  function DecimalString(n: nat): (r: String)
    ensures r != [] && AllDigits(r)
    ensures ParseDigits(r) == n
    decreases n
  {
    if n < 10 then [DigitChar(n)]
    else
      var r := DecimalString(n / 10) + [DigitChar(n % 10)];
      assert r[..|r| - 1] == DecimalString(n / 10);
      r
  }

  /** Different clock readings give different ids. */
  lemma DecimalStringInjective(m: nat, n: nat)
    ensures DecimalString(m) == DecimalString(n) <==> m == n
  {
  }

  /** The task `addTask` stores: the caller's fields with an id and a
      creation time. */
  function MakeTask(f: TaskFields, id: String, createdAt: Millis): (t: Task)
    ensures t.title == f.title && t.assignee == f.assignee && t.dueDate == f.dueDate
    ensures t.priority == f.priority && t.status == f.status
    ensures t.id == id && t.createdAt == createdAt
  {
    Task(id, f.title, f.assignee, f.dueDate, f.priority, f.status, createdAt)
  }

  /** The fields of a stored task, without its id and creation time. */
  function FieldsOf(t: Task): TaskFields {
    TaskFields(t.title, t.assignee, t.dueDate, t.priority, t.status)
  }

  lemma FieldsRoundTrip(f: TaskFields, id: String, createdAt: Millis)
    ensures FieldsOf(MakeTask(f, id, createdAt)) == f
  {
  }

  /** The batch `addTasks` stores: task i has the id of the clock reading
      `stamps[i]` plus i and creation time `createdAts[i]`. */
  function Batch(fs: seq<TaskFields>, stamps: seq<nat>, createdAts: seq<Millis>): (r: seq<Task>)
    requires |stamps| == |fs| == |createdAts|
    ensures |r| == |fs|
    ensures forall i :: 0 <= i < |r| ==> FieldsOf(r[i]) == fs[i] && r[i].createdAt == createdAts[i]
    ensures forall i :: 0 <= i < |r| ==> r[i].id == DecimalString(stamps[i] + i)
  {
    seq(|fs|, i requires 0 <= i < |fs| => MakeTask(fs[i], DecimalString(stamps[i] + i), createdAts[i]))
  }

  /** Successive clock readings never go back. */
  predicate NonDecreasing(stamps: seq<nat>) {
    forall i, j :: 0 <= i < j < |stamps| ==> stamps[i] <= stamps[j]
  }

  /** Within one batch the ids are pairwise distinct, because the clock
      never goes back and the index grows. */
  lemma BatchIdsDistinct(fs: seq<TaskFields>, stamps: seq<nat>, createdAts: seq<Millis>, i: nat, j: nat)
    requires |stamps| == |fs| == |createdAts| && NonDecreasing(stamps)
    requires i < j < |fs|
    ensures Batch(fs, stamps, createdAts)[i].id != Batch(fs, stamps, createdAts)[j].id
  {
    DecimalStringInjective(stamps[i] + i, stamps[j] + j);
  }

  // ---------------------------------------------------------------------
  // Updates

  /** `Partial<Task>`: the fields an update sets. */
  datatype TaskUpdate = TaskUpdate(id: Option<String>, title: Option<String>, assignee: Option<String>,
                                   dueDate: Option<Option<Millis>>, priority: Option<Priority>,
                                   status: Option<Status>, createdAt: Option<Millis>)

  /** `{ ...task, ...updates }`: each field the update sets replaces the
      task's, the others are kept. */
  function Merge(t: Task, u: TaskUpdate): (r: Task)
    ensures r.id == (if u.id.Some? then u.id.value else t.id)
    ensures r.title == (if u.title.Some? then u.title.value else t.title)
    ensures r.assignee == (if u.assignee.Some? then u.assignee.value else t.assignee)
    ensures r.dueDate == (if u.dueDate.Some? then u.dueDate.value else t.dueDate)
    ensures r.priority == (if u.priority.Some? then u.priority.value else t.priority)
    ensures r.status == (if u.status.Some? then u.status.value else t.status)
    ensures r.createdAt == (if u.createdAt.Some? then u.createdAt.value else t.createdAt)
  {
    Task(ValueOr(u.id, t.id), ValueOr(u.title, t.title), ValueOr(u.assignee, t.assignee),
         ValueOr(u.dueDate, t.dueDate), ValueOr(u.priority, t.priority),
         ValueOr(u.status, t.status), ValueOr(u.createdAt, t.createdAt))
  }

  /** Merging the same update again changes nothing. */
  lemma MergeIdempotent(t: Task, u: TaskUpdate)
    ensures Merge(Merge(t, u), u) == Merge(t, u)
  {
  }

  /** An update that sets nothing leaves the task as it is. */
  lemma MergeEmpty(t: Task)
    ensures Merge(t, TaskUpdate(None, None, None, None, None, None, None)) == t
  {
  }

  /** The list after `updateTask(id, updates)`. */
  function Updated(tasks: seq<Task>, id: String, u: TaskUpdate): (r: seq<Task>)
    ensures |r| == |tasks|
    ensures forall k :: 0 <= k < |r| && tasks[k].id == id ==> r[k] == Merge(tasks[k], u)
    ensures forall k :: 0 <= k < |r| && tasks[k].id != id ==> r[k] == tasks[k]
  {
    seq(|tasks|, k requires 0 <= k < |tasks| => if tasks[k].id == id then Merge(tasks[k], u) else tasks[k])
  }

  /** An update that keeps the id may be repeated without effect. */
  lemma UpdateIdempotent(tasks: seq<Task>, id: String, u: TaskUpdate)
    requires u.id.None? || u.id == Some(id)
    ensures Updated(Updated(tasks, id, u), id, u) == Updated(tasks, id, u)
  {
    var once := Updated(tasks, id, u);
    forall k | 0 <= k < |tasks| ensures Updated(once, id, u)[k] == once[k] {
      if tasks[k].id == id {
        MergeIdempotent(tasks[k], u);
      }
    }
  }

  /** An id no task carries: the update changes nothing. */
  lemma UpdateMissingId(tasks: seq<Task>, id: String, u: TaskUpdate)
    requires forall k :: 0 <= k < |tasks| ==> tasks[k].id != id
    ensures Updated(tasks, id, u) == tasks
  {
  }

  // ---------------------------------------------------------------------
  // Deletion

  function HasNotId(id: String): Task -> bool {
    (t: Task) => t.id != id
  }

  /** The list after `deleteTask(id)`: the tasks without that id, in their
      order. */
  function Deleted(tasks: seq<Task>, id: String): (r: seq<Task>)
    ensures |r| <= |tasks|
    ensures forall k :: 0 <= k < |r| ==> r[k].id != id
  {
    Filter(tasks, HasNotId(id))
  }

  /** Every task without the id stays, as often as before; every task with
      it goes. */
  lemma DeletedKeepsOthers(tasks: seq<Task>, id: String, t: Task)
    ensures multiset(Deleted(tasks, id))[t] == if t.id == id then 0 else multiset(tasks)[t]
  {
    FilterMultiset(tasks, HasNotId(id), t);
  }

  /** Deletion keeps the order: deleting from a concatenation deletes from
      each part. */
  lemma DeletedKeepsOrder(xs: seq<Task>, ys: seq<Task>, id: String)
    ensures Deleted(xs + ys, id) == Deleted(xs, id) + Deleted(ys, id)
  {
    FilterAppend(xs, ys, HasNotId(id));
  }

  /** Deleting a task just added under a fresh id gives the list back. */
  lemma DeleteUndoesAdd(tasks: seq<Task>, f: TaskFields, stamp: nat, createdAt: Millis)
    requires forall k :: 0 <= k < |tasks| ==> tasks[k].id != DecimalString(stamp)
    ensures Deleted([MakeTask(f, DecimalString(stamp), createdAt)] + tasks, DecimalString(stamp)) == tasks
  {
    var id := DecimalString(stamp);
    DeletedKeepsOrder([MakeTask(f, id, createdAt)], tasks, id);
    FilterKeepsAll(tasks, HasNotId(id));
  }

  // ---------------------------------------------------------------------
  // Assignees

  /** `Array.from(new Set(tasks.map(a => a.assignee).filter(Boolean)))`:
      the non-empty assignees in order of first appearance. */
  function UniqueAssignees(tasks: seq<Task>): (r: seq<String>)
    ensures forall i :: 0 <= i < |r| ==> r[i] != []
    ensures forall i, j :: 0 <= i < j < |r| ==> r[i] != r[j]
    ensures forall i :: 0 <= i < |r| ==> exists k :: 0 <= k < |tasks| && tasks[k].assignee == r[i]
    ensures |r| <= |tasks|
    decreases |tasks|
  {
    if tasks == [] then []
    else
      var init := UniqueAssignees(tasks[..|tasks| - 1]);
      var a := tasks[|tasks| - 1].assignee;
      var r := if a == [] || a in init then init else init + [a];
      assert forall i :: 0 <= i < |init| ==> exists k :: 0 <= k < |tasks| && tasks[k].assignee == init[i] by {
        forall i | 0 <= i < |init| ensures exists k :: 0 <= k < |tasks| && tasks[k].assignee == init[i] {
          var k :| 0 <= k < |tasks| - 1 && tasks[..|tasks| - 1][k].assignee == init[i];
          assert tasks[k].assignee == init[i];
        }
      }
      r
  }

  /** Every non-empty assignee of some task is offered. */
  lemma {:induction false} AssigneeOffered(tasks: seq<Task>, k: nat)
    requires k < |tasks| && tasks[k].assignee != []
    ensures tasks[k].assignee in UniqueAssignees(tasks)
    decreases |tasks|
  {
    if k < |tasks| - 1 {
      AssigneeOffered(tasks[..|tasks| - 1], k);
    }
  }

  // ---------------------------------------------------------------------
  // The list held by the page

  /** The page's `tasks` state. */
  class TaskList {
    var tasks: seq<Task>

    constructor ()
      ensures tasks == []
    {
      tasks := [];
    }

    /** `addTask`: the new task goes first and the others follow. */
    method AddTask(f: TaskFields, stamp: nat, createdAt: Millis)
      modifies this
      ensures tasks == [MakeTask(f, DecimalString(stamp), createdAt)] + old(tasks)
    {
      tasks := [MakeTask(f, DecimalString(stamp), createdAt)] + tasks;
    }

    /** `addTasks`: the batch goes first, in its order. */
    method AddTasks(fs: seq<TaskFields>, stamps: seq<nat>, createdAts: seq<Millis>)
      requires |stamps| == |fs| == |createdAts|
      modifies this
      ensures tasks == Batch(fs, stamps, createdAts) + old(tasks)
    {
      tasks := Batch(fs, stamps, createdAts) + tasks;
    }

    /** `updateTask`. */
    method UpdateTask(id: String, u: TaskUpdate)
      modifies this
      ensures tasks == Updated(old(tasks), id, u)
    {
      tasks := Updated(tasks, id, u);
    }

    /** `deleteTask`. */
    method DeleteTask(id: String)
      modifies this
      ensures tasks == Deleted(old(tasks), id)
    {
      tasks := Deleted(tasks, id);
    }

    /** `uniqueAssignees`. */
    function Assignees(): seq<String>
      reads this
    {
      UniqueAssignees(tasks)
    }
  }
}
