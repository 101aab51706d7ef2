/** The records the task manager passes around: the parsers' output, the
    stored task, and the values its fields range over. */
module Tasks {
  import opened Options
  import opened Text
  import opened Calendar

  datatype Priority = P1 | P2 | P3 | P4

  datatype Status = Pending | InProgress | Completed

  /** What both parsers produce for one task; a missing due date is None. */
  datatype ParsedTask = ParsedTask(title: String, assignee: String, dueDate: Option<Millis>,
                                   priority: Priority)

  /** A task on the board. Times are local milliseconds (`Date.getTime()`). */
  datatype Task = Task(id: String, title: String, assignee: String, dueDate: Option<Millis>,
                       priority: Priority, status: Status, createdAt: Millis)

  /** The fields a caller supplies when adding a task: a task without id
      and creation time. */
  datatype TaskFields = TaskFields(title: String, assignee: String, dueDate: Option<Millis>,
                                   priority: Priority, status: Status)

  /** A digit `[1-4]` naming a priority level. */
  predicate IsLevelDigit(c: char) { '1' <= c <= '4' }

  function LevelOfDigit(c: char): (p: Priority)
    requires IsLevelDigit(c)
    ensures PriorityName(p) == ['P', c]
  {
    if c == '1' then P1 else if c == '2' then P2 else if c == '3' then P3 else P4
  }

  /** The string a priority shows as, and that the priority filter holds. */
  function PriorityName(p: Priority): (r: String)
    ensures |r| == 2 && r[0] == 'P'
  {
    match p
    case P1 => "P1"
    case P2 => "P2"
    case P3 => "P3"
    case P4 => "P4"
  }

  /** The string a status shows as, and that the status filter holds. */
  function StatusName(s: Status): (r: String)
    ensures r != []
  {
    match s
    case Pending => "pending"
    case InProgress => "in-progress"
    case Completed => "completed"
  }

  lemma PriorityNameInjective(p: Priority, q: Priority)
    ensures PriorityName(p) == PriorityName(q) <==> p == q
  {
    if PriorityName(p) == PriorityName(q) {
      assert PriorityName(p)[1] == PriorityName(q)[1];
    }
  }

  lemma StatusNameInjective(s: Status, t: Status)
    ensures StatusName(s) == StatusName(t) <==> s == t
  {
    if StatusName(s) == StatusName(t) {
      assert StatusName(s)[0] == StatusName(t)[0];
      assert |StatusName(s)| == |StatusName(t)|;
    }
  }

  /** The board's filter and sort settings. Every field holds a string: the
      four filters are empty when they impose nothing, and `sortBy` and
      `sortOrder` take the select's values. */
  datatype FilterState = FilterState(search: String, assignee: String, priority: String,
                                     status: String, sortBy: String, sortOrder: String)

  /** The settings the board starts with. */
  const DefaultFilters: FilterState := FilterState("", "", "", "", "dueDate", "asc")

  /** A task is overdue when it has a due date, now is past it, and it is
      not completed. */
  predicate IsOverdue(t: Task, now: Millis) {
    t.dueDate.Some? && now > t.dueDate.value && t.status != Completed
  }

  /** An overdue task is never completed and always has a due date. */
  lemma OverdueNeedsDueDate(t: Task, now: Millis)
    ensures t.dueDate.None? || t.status == Completed ==> !IsOverdue(t, now)
  {
  }

  /** The tests `task.status === s` and `task.priority === p`. */
  function InStatus(s: Status): Task -> bool {
    (t: Task) => t.status == s
  }

  function AtLevel(p: Priority): Task -> bool {
    (t: Task) => t.priority == p
  }
}
