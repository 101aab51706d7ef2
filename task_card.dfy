/** One task's card: its edit buffer for title, assignee and priority, the
    status moves it offers, and whether it shows as overdue. The card
    changes the task only by sending updates for its id to the list. */
module TaskCard {
  import opened Options
  import opened Text
  import opened Calendar
  import opened Tasks
  import opened TaskStore

  /** The card's `editData`. */
  datatype EditBuffer = EditBuffer(title: String, assignee: String, priority: Priority)

  function BufferOf(t: Task): (b: EditBuffer)
    ensures b.title == t.title && b.assignee == t.assignee && b.priority == t.priority
  {
    EditBuffer(t.title, t.assignee, t.priority)
  }

  /** The update `handleSave` sends: exactly the three edited fields. */
  function SaveUpdate(b: EditBuffer): (u: TaskUpdate)
    ensures u.title == Some(b.title) && u.assignee == Some(b.assignee) && u.priority == Some(b.priority)
    ensures u.id.None? && u.dueDate.None? && u.status.None? && u.createdAt.None?
  {
    TaskUpdate(None, Some(b.title), Some(b.assignee), None, Some(b.priority), None, None)
  }

  /** The update a status button sends: the status alone. */
  function StatusUpdate(s: Status): (u: TaskUpdate)
    ensures u.status == Some(s)
    ensures u.id.None? && u.title.None? && u.assignee.None? && u.dueDate.None?
    ensures u.priority.None? && u.createdAt.None?
  {
    TaskUpdate(None, None, None, None, None, Some(s), None)
  }

  /** Saving sets the edited fields of the task and keeps its id, due date,
      status and creation time; saving an untouched buffer changes nothing. */
  lemma SaveChangesOnlyEdited(t: Task, b: EditBuffer)
    ensures Merge(t, SaveUpdate(b)) == t.(title := b.title, assignee := b.assignee, priority := b.priority)
    ensures Merge(t, SaveUpdate(BufferOf(t))) == t
  {
  }

  /** In the list, a save touches only the tasks with the card's id, and
      in those only the three edited fields; the card's own task is found
      again under its id. */
  lemma SaveInList(tasks: seq<Task>, t: Task, b: EditBuffer, k: nat)
    requires k < |tasks|
    ensures var r := Updated(tasks, t.id, SaveUpdate(b));
      r[k] == (if tasks[k].id == t.id then tasks[k].(title := b.title, assignee := b.assignee, priority := b.priority)
               else tasks[k])
      && r[k].id == tasks[k].id
  {
  }

  /** The status buttons shown for each status, in their order on the card. */
  function OfferedTransitions(s: Status): (r: seq<Status>)
    ensures s !in r
    ensures InProgress in r <==> s == Pending
    ensures Completed in r <==> s == InProgress
    ensures Pending in r <==> s != Pending
    ensures forall i, j :: 0 <= i < j < |r| ==> r[i] != r[j]
  {
    match s
    case Pending => [InProgress]
    case InProgress => [Pending, Completed]
    case Completed => [Pending]
  }

  /** A task reaches completion only through in progress; every other
      status is one offered move from pending; and completion is at most
      two offered moves from any status but completed. */
  lemma TransitionPaths(s: Status)
    ensures Completed in OfferedTransitions(s) ==> s == InProgress
    ensures s == Pending || Pending in OfferedTransitions(s)
    ensures s != Completed ==> (Completed in OfferedTransitions(s)
              || exists m :: m in OfferedTransitions(s) && Completed in OfferedTransitions(m))
  {
    if s == Pending {
      assert InProgress in OfferedTransitions(s) && Completed in OfferedTransitions(InProgress);
    }
  }

  /** A status move changes the status of the card's task in the list and
      nothing else. */
  lemma StatusMoveInList(tasks: seq<Task>, id: String, s: Status, k: nat)
    requires k < |tasks|
    ensures Updated(tasks, id, StatusUpdate(s))[k] == if tasks[k].id == id then tasks[k].(status := s) else tasks[k]
  {
  }

  class Card {
    var task: Task
    var isEditing: bool
    var editData: EditBuffer

    /** The card starts closed, its buffer holding the task's fields. */
    constructor (t: Task)
      ensures task == t && !isEditing && editData == BufferOf(t)
    {
      task := t;
      isEditing := false;
      editData := BufferOf(t);
    }

    /** The edit button: the editor opens on the buffer as it is. */
    method StartEdit()
      modifies this
      ensures isEditing && editData == old(editData) && task == old(task)
    {
      isEditing := true;
    }

    /** The editor's inputs. */
    method ChangeEditData(b: EditBuffer)
      requires isEditing
      modifies this
      ensures editData == b && isEditing && task == old(task)
    {
      editData := b;
    }

    /** `handleSave`: the update for the task's id, and the editor closes. */
    method Save() returns (id: String, u: TaskUpdate)
      modifies this
      ensures id == task.id && u == SaveUpdate(editData)
      ensures !isEditing && editData == old(editData) && task == old(task)
    {
      id := task.id;
      u := SaveUpdate(editData);
      isEditing := false;
    }

    /** `handleCancel`: the buffer is reset to the task and the editor
        closes. */
    method Cancel()
      modifies this
      ensures editData == BufferOf(task) && !isEditing && task == old(task)
    {
      editData := BufferOf(task);
      isEditing := false;
    }

    /** A status button: only the moves offered for the current status. */
    method MoveTo(target: Status) returns (id: String, u: TaskUpdate)
      requires !isEditing && target in OfferedTransitions(task.status)
      ensures id == task.id && u == StatusUpdate(target)
      ensures target != task.status
    {
      id := task.id;
      u := StatusUpdate(target);
    }

    /** The card's `isOverdue`. */
    predicate Overdue(now: Millis)
      reads this
    {
      IsOverdue(task, now)
    }

    /** The card's parent replaced its task. */
    method Receive(t: Task)
      modifies this
      ensures task == t && isEditing == old(isEditing) && editData == old(editData)
    {
      task := t;
    }
  }

  /** A card shows as overdue only with a due date in the past and a status
      other than completed. */
  lemma OverdueCard(c: Card, now: Millis)
    ensures c.Overdue(now) <==> c.task.dueDate.Some? && now > c.task.dueDate.value && c.task.status != Completed
    ensures c.task.dueDate.None? || c.task.status == Completed ==> !c.Overdue(now)
  {
  }
}
