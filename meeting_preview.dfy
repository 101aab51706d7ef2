/** The meeting-minutes preview: the transcript, the tasks parsed from it,
    and an editor for one of them, with the handlers that parse, edit,
    save, cancel, remove and add all. */
module MeetingPreview {
  import opened Options
  import opened Text
  import opened Calendar
  import opened Tasks
  import opened MeetingParser

  // ---------------------------------------------------------------------
  // List operations

  /** `prev.filter((_, i) => i !== index)`: the list without position i,
      the others in their order. */
  function RemoveAt<T>(xs: seq<T>, i: int): (r: seq<T>)
    ensures 0 <= i < |xs| ==> |r| == |xs| - 1
    ensures 0 <= i < |xs| ==> forall k :: 0 <= k < |r| ==> r[k] == if k < i then xs[k] else xs[k + 1]
    ensures !(0 <= i < |xs|) ==> r == xs
  {
    if 0 <= i < |xs| then xs[..i] + xs[i + 1..] else xs
  }

  /** The fields `handleAddAllTasks` hands on: the parsed fields of each
      task, as a pending task. */
  function ToAdd(ps: seq<ParsedTask>): (r: seq<TaskFields>)
    ensures |r| == |ps|
    ensures forall k :: 0 <= k < |r| ==>
      r[k] == TaskFields(ps[k].title, ps[k].assignee, ps[k].dueDate, ps[k].priority, Pending)
  {
    seq(|ps|, k requires 0 <= k < |ps| => TaskFields(ps[k].title, ps[k].assignee, ps[k].dueDate, ps[k].priority, Pending))
  }

  /** The editor's three inputs: `{ ...prev, title }`, `{ ...prev, assignee }`
      and `{ ...prev, priority }`; the due date is kept. */
  function Edited(d: ParsedTask, title: String, assignee: String, priority: Priority): (r: ParsedTask)
    ensures r.title == title && r.assignee == assignee && r.priority == priority
    ensures r.dueDate == d.dueDate
  {
    d.(title := title, assignee := assignee, priority := priority)
  }

  // ---------------------------------------------------------------------
  // The handlers as written

  /** The preview's state as the component keeps it, with the list as a
      JavaScript array: assigning past its end leaves holes (None). */
  datatype Preview = Preview(tasks: seq<Option<ParsedTask>>, editingIndex: Option<nat>,
                             editData: Option<ParsedTask>)

  /** `updatedTasks[editingIndex] = editData` on a JavaScript array; an
      empty buffer `{}` is written as None too. */
  function AssignAt(xs: seq<Option<ParsedTask>>, i: nat, d: Option<ParsedTask>): (r: seq<Option<ParsedTask>>)
    ensures |r| == if i < |xs| then |xs| else i + 1
    ensures r[i] == d
    ensures forall k :: 0 <= k < |xs| && k != i ==> r[k] == xs[k]
    ensures forall k :: |xs| <= k < i ==> r[k].None?
  {
    if i < |xs| then xs[i := d] else xs + seq(i - |xs|, _ => None) + [d]
  }

  /** The parsed tasks as entries of the list. */
  function Entries(ts: seq<ParsedTask>): (r: seq<Option<ParsedTask>>)
    ensures |r| == |ts| && forall k :: 0 <= k < |r| ==> r[k] == Some(ts[k])
  {
    seq(|ts|, k requires 0 <= k < |ts| => Some(ts[k]))
  }

  /** `handleParseMeeting` as written: a blank transcript changes nothing;
      otherwise the parsed tasks replace the list and the editor state is
      left as it was. */
  function ParseAsWritten(p: Preview, transcript: String, now: Clock): (r: Preview)
    requires ValidClock(now)
    ensures Trim(transcript) == [] ==> r == p
    ensures Trim(transcript) != [] ==> r == ReplaceAsWritten(p, MeetingTasks(transcript, now))
  {
    if Trim(transcript) == [] then p else ReplaceAsWritten(p, MeetingTasks(transcript, now))
  }

  /** `setParsedTasks(tasks)` once the parse is done: the list is replaced
      and the editor state is left as it was. */
  function ReplaceAsWritten(p: Preview, ts: seq<ParsedTask>): (r: Preview)
    ensures r.tasks == Entries(ts)
    ensures r.editingIndex == p.editingIndex && r.editData == p.editData
  {
    p.(tasks := Entries(ts))
  }

  function EditAsWritten(p: Preview, i: nat): (r: Preview)
    requires i < |p.tasks|
    ensures r.editingIndex == Some(i) && r.editData == p.tasks[i] && r.tasks == p.tasks
  {
    p.(editingIndex := Some(i), editData := p.tasks[i])
  }

  /** `handleSaveEdit` as written: nothing happens with the editor closed. */
  function SaveAsWritten(p: Preview): (r: Preview)
    ensures p.editingIndex.None? ==> r == p
    ensures p.editingIndex.Some? ==> r.editingIndex.None? && r.editData.None?
    ensures p.editingIndex.Some? ==> r.tasks == AssignAt(p.tasks, p.editingIndex.value, p.editData)
  {
    if p.editingIndex.Some? then Preview(AssignAt(p.tasks, p.editingIndex.value, p.editData), None, None)
    else p
  }

  /** `handleRemoveTask` as written: the editing index is left as it was. */
  function RemoveAsWritten(p: Preview, i: nat): (r: Preview)
    ensures r.tasks == RemoveAt(p.tasks, i)
    ensures r.editingIndex == p.editingIndex && r.editData == p.editData
  {
    p.(tasks := RemoveAt(p.tasks, i))
  }

  /** Editing the second of three tasks, removing the first and saving
      overwrites the third, which is lost, and keeps two copies of the
      second. */
  lemma RemoveWhileEditingLosesTask(a: ParsedTask, b: ParsedTask, c: ParsedTask)
    requires a != c && b != c
    ensures var p := SaveAsWritten(RemoveAsWritten(EditAsWritten(Preview([Some(a), Some(b), Some(c)], None, None), 1), 0));
      p.tasks == [Some(b), Some(b)] && Some(c) !in p.tasks
  {
    var p0 := Preview([Some(a), Some(b), Some(c)], None, None);
    var p2 := RemoveAsWritten(EditAsWritten(p0, 1), 0);
    assert p2.tasks == [Some(b), Some(c)];
  }

  /** `handleAddAllTasks` as written: the list empties, the editor state
      stays. */
  function AddAllAsWritten(p: Preview): (r: Preview)
    ensures r.tasks == []
    ensures r.editingIndex == p.editingIndex && r.editData == p.editData
  {
    p.(tasks := [])
  }

  /** Adding all while editing leaves the editor pointing into the emptied
      list, with the old buffer. */
  lemma AddAllLeavesEditorOpen(a: ParsedTask, b: ParsedTask)
    ensures var p := AddAllAsWritten(EditAsWritten(Preview([Some(a), Some(b)], None, None), 1));
      p.tasks == [] && p.editingIndex == Some(1) && p.editData == Some(b)
  {
  }

  /** Editing the second of two tasks and then parsing a transcript whose
      tasks are ts keeps the editor on index 1 with the old buffer; saving
      then overwrites the second new task with the old one. */
  lemma ReparseWhileEditingKeepsStaleBuffer(a: ParsedTask, b: ParsedTask, ts: seq<ParsedTask>)
    requires |ts| == 2 && ts[1] != b
    ensures var p := SaveAsWritten(ReplaceAsWritten(EditAsWritten(Preview([Some(a), Some(b)], None, None), 1), ts));
      p.tasks == [Some(ts[0]), Some(b)] && p.tasks[1] != Some(ts[1])
  {
    var p1 := ReplaceAsWritten(EditAsWritten(Preview([Some(a), Some(b)], None, None), 1), ts);
    assert p1.tasks == [Some(ts[0]), Some(ts[1])];
  }

  // ---------------------------------------------------------------------
  // The corrected component

  /** The preview with the editing index kept on the task being edited:
      removing a task before it moves it back, and replacing or emptying
      the list ends the edit. */
  class MeetingPreview {
    var transcript: String
    var parsedTasks: seq<ParsedTask>
    var editingIndex: Option<nat>
    var editData: Option<ParsedTask>

    /** The editor is open on an existing task, with a buffer, or closed
        without one. */
    predicate Valid()
      reads this
    {
      (editingIndex.Some? ==> editingIndex.value < |parsedTasks| && editData.Some?)
      && (editingIndex.None? ==> editData.None?)
    }

    constructor ()
      ensures Valid()
      ensures transcript == [] && parsedTasks == [] && editingIndex.None?
    {
      transcript := [];
      parsedTasks := [];
      editingIndex := None;
      editData := None;
    }

    /** The transcript box's `onChange`. */
    method SetTranscript(s: String)
      modifies this
      ensures transcript == s
      ensures parsedTasks == old(parsedTasks) && editingIndex == old(editingIndex) && editData == old(editData)
    {
      transcript := s;
    }

    /** `handleParseMeeting`: nothing happens for a blank transcript;
        otherwise the tasks parsed from it replace the list. */
    method ParseMeeting(now: Clock)
      requires Valid() && ValidClock(now)
      modifies this
      ensures Valid()
      ensures transcript == old(transcript)
      ensures Trim(transcript) == [] ==>
        parsedTasks == old(parsedTasks) && editingIndex == old(editingIndex) && editData == old(editData)
      ensures Trim(transcript) != [] ==>
        parsedTasks == MeetingTasks(transcript, now) && editingIndex.None?
    {
      if Trim(transcript) == [] {
        return;
      }
      editingIndex := None;
      editData := None;
      var tasks := ParseMeetingMinutes(transcript, now);
      parsedTasks := tasks;
    }

    /** `handleEditTask(index)`: the editor opens on a copy of that task. */
    method EditTask(index: nat)
      requires Valid() && index < |parsedTasks|
      modifies this
      ensures Valid()
      ensures editingIndex == Some(index) && editData == Some(parsedTasks[index])
      ensures parsedTasks == old(parsedTasks) && transcript == old(transcript)
    {
      editingIndex := Some(index);
      editData := Some(parsedTasks[index]);
    }

    /** The editor's inputs change the buffer only. */
    method ChangeEditData(title: String, assignee: String, priority: Priority)
      requires Valid() && editingIndex.Some?
      modifies this
      ensures Valid()
      ensures editData == Some(Edited(old(editData).value, title, assignee, priority))
      ensures parsedTasks == old(parsedTasks) && editingIndex == old(editingIndex) && transcript == old(transcript)
    {
      editData := Some(Edited(editData.value, title, assignee, priority));
    }

    /** `handleSaveEdit`: the buffer replaces the edited entry, nothing else
        in the list changes, and the editor closes. */
    method SaveEdit()
      requires Valid()
      modifies this
      ensures Valid()
      ensures old(editingIndex).Some? ==> parsedTasks == old(parsedTasks)[old(editingIndex).value := old(editData).value]
      ensures old(editingIndex).None? ==> parsedTasks == old(parsedTasks)
      ensures |parsedTasks| == |old(parsedTasks)|
      ensures editingIndex.None? && editData.None? && transcript == old(transcript)
    {
      if editingIndex.Some? {
        parsedTasks := parsedTasks[editingIndex.value := editData.value];
      }
      editingIndex := None;
      editData := None;
    }

    /** `handleCancelEdit`: the editor closes and the list stays. */
    method CancelEdit()
      requires Valid()
      modifies this
      ensures Valid()
      ensures editingIndex.None? && editData.None?
      ensures parsedTasks == old(parsedTasks) && transcript == old(transcript)
    {
      editingIndex := None;
      editData := None;
    }

    /** `handleRemoveTask(index)`: exactly that entry goes, and an open
        editor stays on the task it was editing. */
    method RemoveTask(index: nat)
      requires Valid()
      modifies this
      ensures Valid()
      ensures parsedTasks == RemoveAt(old(parsedTasks), index)
      ensures editingIndex.Some? ==>
        old(editingIndex).Some? && parsedTasks[editingIndex.value] == old(parsedTasks)[old(editingIndex).value]
        && editData == old(editData)
      ensures old(editingIndex).Some? && old(editingIndex).value != index ==> editingIndex.Some?
      ensures old(editingIndex) == Some(index) && index < |old(parsedTasks)| ==>
        editingIndex.None? && editData.None?
      ensures old(editingIndex).Some? && index < old(editingIndex).value && index < |old(parsedTasks)| ==>
        editingIndex == Some(old(editingIndex).value - 1) && editData == old(editData)
      ensures old(editingIndex).None? || old(editingIndex).value < index || |old(parsedTasks)| <= index ==>
        editingIndex == old(editingIndex) && editData == old(editData)
      ensures transcript == old(transcript)
    {
      var before := parsedTasks;
      parsedTasks := RemoveAt(parsedTasks, index);
      if editingIndex.Some? && index < |before| {
        var e := editingIndex.value;
        if e == index {
          editingIndex := None;
          editData := None;
        } else if e > index {
          editingIndex := Some(e - 1);
        }
      }
    }

    /** `handleAddAllTasks`: every parsed task goes out as a pending task,
        in its order, and the transcript and the list are emptied. */
    method AddAllTasks() returns (added: seq<TaskFields>)
      requires Valid()
      modifies this
      ensures Valid()
      ensures added == ToAdd(old(parsedTasks))
      ensures transcript == [] && parsedTasks == [] && editingIndex.None?
    {
      added := ToAdd(parsedTasks);
      transcript := [];
      parsedTasks := [];
      editingIndex := None;
      editData := None;
    }
  }
}
