/**
  The task-detail panel of components/Task-detail.tsx: how a task's
  priority is shown in the form, the body of the PUT request built on save,
  and the edits the panel makes to the tag and subtask lists.
 */
module TaskDetail {
  import opened Base
  import opened JsText
  import opened TaskTypes
  import opened TaskForm
  import TodoPage
  import TaskList

  /** The priority `getPriorityString` is handed: missing, a number, or a string. */
  datatype PriorityValue = Missing | Number(n: int) | Text(s: string)

  /**
    `getPriorityString`: a missing priority and a number outside 0..3 show as
    "none", a code 0..3 as its level's name, and a string as itself.
   */
  function GetPriorityString(v: PriorityValue): (r: string)
    ensures v.Text? ==> r == v.s
    ensures v.Missing? ==> r == "none"
    ensures v.Number? ==> r in {"none", "low", "medium", "high"}
  {
    match v
    case Missing => "none"
    case Number(n) => if LevelOfCode(n).Some? then LevelName(LevelOfCode(n).value) else "none"
    case Text(s) => s
  }

  /** `priorityMap[data.priority || 'none']`: an absent or empty value counts as "none". */
  function SubmitPriority(p: Option<string>): (r: Option<int>)
    ensures p.None? || p.value == "" ==> r == Some(0)
    ensures p.Some? && p.value != "" ==> r == CodeOfName(p.value)
  {
    CodeOfName(if p.None? || p.value == "" then "none" else p.value)
  }

  /**
    A numeric priority shown in the form and saved unchanged is sent back as
    the same code when it is 0..3, and as 0 otherwise.
   */
  lemma NumericPriorityRoundTrip(n: int)
    ensures 0 <= n <= 3 ==> SubmitPriority(Some(GetPriorityString(Number(n)))) == Some(n)
    ensures !(0 <= n <= 3) ==> SubmitPriority(Some(GetPriorityString(Number(n)))) == Some(0)
  {
    if 0 <= n <= 3 {
      LevelRoundTrip(LevelOfCode(n).value);
    }
  }

  /** The form sees a client task's priority as its capitalised name, or as missing. */
  function TaskPriorityValue(t: Task): PriorityValue
  {
    if t.priority.None? then Missing else Text(PriorityName(t.priority.value))
  }

  /**
    As written: a task whose priority is set shows "High", "Medium" or "Low"
    in the form, none of which is a key of the lower-case map, so saving the
    task unchanged sends no priority at all.
   */
  lemma CapitalisedPriorityDropped(t: Task)
    requires t.priority.Some?
    ensures SubmitPriority(Some(GetPriorityString(TaskPriorityValue(t)))).None?
  {
  }

  /** Corrected: a string priority is lower-cased before it reaches the form. */
  function GetPriorityStringFixed(v: PriorityValue): (r: string)
    ensures v.Text? ==> r == Lower(v.s)
    ensures !v.Text? ==> r == GetPriorityString(v)
  {
    match v
    case Text(s) => Lower(s)
    case _ => GetPriorityString(v)
  }

  /**
    With the correction, saving a task unchanged sends a code that the
    page's mapper reads back as the task's own priority.
   */
  lemma FixedPriorityKept(t: Task)
    ensures var code := SubmitPriority(Some(GetPriorityStringFixed(TaskPriorityValue(t))));
      code.Some? && TodoPage.PriorityOfCode(code.value) == t.priority
  {
    if t.priority.Some? {
      match t.priority.value
      case High => assert Lower("High") == "high";
      case Medium => assert Lower("Medium") == "medium";
      case Low => assert Lower("Low") == "low";
    }
  }

  /** The detail form's values; every field is optional in its schema. */
  datatype DetailForm = DetailForm(
    title: string,
    description: Option<string>,
    priority: Option<string>,
    dueDate: Option<string>,
    tags: Option<seq<string>>,
    subtasks: Option<seq<Subtask>>)

  /**
    The values the form is reset to for a task, with `showPriority` the
    function that turns the task's priority into the select's value.
    `dueText` stands for the ISO day the due date is formatted to.
   */
  function FormDefaultsWith(t: Task, dueText: string, showPriority: PriorityValue -> string): (d: DetailForm)
    ensures d.title == t.title && d.priority == Some(showPriority(TaskPriorityValue(t)))
    ensures d.description == Some(if t.description.Some? then t.description.value else "")
    ensures d.tags == Some(if t.tags.Some? then t.tags.value else [])
    ensures d.subtasks == Some(if t.subtasks.Some? then t.subtasks.value else [])
    ensures d.dueDate == Some(if t.dueDate.Some? then dueText else "")
  {
    DetailForm(
      t.title,
      Some(if t.description.Some? then t.description.value else ""),
      Some(showPriority(TaskPriorityValue(t))),
      Some(if t.dueDate.Some? then dueText else ""),
      Some(if t.tags.Some? then t.tags.value else []),
      Some(if t.subtasks.Some? then t.subtasks.value else []))
  }

  /**
    As written: the form's defaults, with the priority shown by
    `getPriorityString`, so a task with a priority shows its capitalised name.
   */
  function FormDefaults(t: Task, dueText: string): (d: DetailForm)
    ensures d.title == t.title
    ensures t.priority.Some? ==> d.priority == Some(PriorityName(t.priority.value))
    ensures t.priority.None? ==> d.priority == Some("none")
    ensures d.description == Some(if t.description.Some? then t.description.value else "")
    ensures d.tags == Some(if t.tags.Some? then t.tags.value else [])
    ensures d.subtasks == Some(if t.subtasks.Some? then t.subtasks.value else [])
    ensures d.dueDate == Some(if t.dueDate.Some? then dueText else "")
  {
    FormDefaultsWith(t, dueText, GetPriorityString)
  }

  /** Corrected: the same defaults with the priority shown in lower case. */
  function FormDefaultsFixed(t: Task, dueText: string): (d: DetailForm)
    ensures d == FormDefaults(t, dueText).(priority := d.priority)
    ensures t.priority.Some? ==> d.priority == Some(Lower(PriorityName(t.priority.value)))
    ensures t.priority.None? ==> d.priority == Some("none")
  {
    FormDefaultsWith(t, dueText, GetPriorityStringFixed)
  }

  /** The body of the PUT request; an undefined priority is left out of the JSON. */
  datatype UpdatePayload = UpdatePayload(
    title: string,
    description: string,
    priority: Option<int>,
    tags: seq<string>,
    dueDate: Option<string>,
    subtasks: seq<Subtask>,
    completed: bool)

  /**
    `updateData`: the description defaults to "", absent tags and subtasks
    to [], an absent or empty due date becomes null, and `completed` comes
    from the task, not from the form.
   */
  function UpdateData(d: DetailForm, completed: bool): (r: UpdatePayload)
    ensures r.title == d.title && r.completed == completed
    ensures r.description == (if d.description.Some? then d.description.value else "")
    ensures r.priority == SubmitPriority(d.priority) && r.dueDate == OrNull(d.dueDate)
    ensures r.tags == (if d.tags.Some? then d.tags.value else [])
    ensures r.subtasks == (if d.subtasks.Some? then d.subtasks.value else [])
  {
    UpdatePayload(
      d.title,
      if d.description.Some? && d.description.value != "" then d.description.value else "",
      SubmitPriority(d.priority),
      if d.tags.Some? && |d.tags.value| > 0 then d.tags.value else [],
      OrNull(d.dueDate),
      if d.subtasks.Some? then d.subtasks.value else [],
      completed)
  }

  /**
    As written, saving a task without editing it sends back its title,
    description, tags, subtasks and completion, and a null due date for a
    task without one; but a task with a priority is sent with none, and one
    without a priority is sent with code 0.
   */
  lemma UnchangedSaveAsWritten(t: Task, dueText: string)
    ensures var r := UpdateData(FormDefaults(t, dueText), t.completed);
      && r.title == t.title && r.completed == t.completed
      && (t.description.Some? ==> r.description == t.description.value)
      && (t.tags.Some? ==> r.tags == t.tags.value)
      && (t.subtasks.Some? ==> r.subtasks == t.subtasks.value)
      && (t.priority.Some? ==> r.priority.None?)
      && (t.priority.None? ==> r.priority == Some(0))
      && (t.dueDate.None? ==> r.dueDate.None?)
  {
    if t.priority.Some? {
      CapitalisedPriorityDropped(t);
    }
  }

  /**
    With the corrected priority display, saving a task without editing it
    sends back its title, description, tags, subtasks, completion and its
    priority; a task with no due date is sent with a null one.
   */
  lemma UnchangedSaveKeepsTask(t: Task, dueText: string)
    ensures var r := UpdateData(FormDefaultsFixed(t, dueText), t.completed);
      && r.title == t.title && r.completed == t.completed
      && (t.description.Some? ==> r.description == t.description.value)
      && (t.tags.Some? ==> r.tags == t.tags.value)
      && (t.subtasks.Some? ==> r.subtasks == t.subtasks.value)
      && r.priority.Some? && TodoPage.PriorityOfCode(r.priority.value) == t.priority
      && (t.dueDate.None? ==> r.dueDate.None?)
  {
    FixedPriorityKept(t);
  }

  /** The subtask list and the new-subtask draft. */
  datatype SubtaskEdit = SubtaskEdit(subtasks: Option<seq<Subtask>>, draft: string)

  /**
    `handleAddSubtask`, with `freshId` standing for the random UUID: when the
    trimmed draft is non-empty, one open subtask titled with the untrimmed
    draft is appended and the draft cleared; otherwise nothing changes.
   */
  function AddSubtask(subtasks: Option<seq<Subtask>>, draft: string, freshId: string): (r: SubtaskEdit)
    ensures Trim(draft) == "" ==> r == SubtaskEdit(subtasks, draft)
    ensures Trim(draft) != "" ==>
      r.draft == "" && r.subtasks == Some((if subtasks.Some? then subtasks.value else []) + [Subtask(freshId, draft, false)])
  {
    if Trim(draft) != "" then
      SubtaskEdit(Some((if subtasks.Some? then subtasks.value else []) + [Subtask(freshId, draft, false)]), "")
    else SubtaskEdit(subtasks, draft)
  }

  /**
    An added subtask is open: it raises the total by one and leaves the
    completed count alone. A draft of white space only adds nothing.
   */
  lemma AddSubtaskCountsOpen(subtasks: seq<Subtask>, draft: string, freshId: string)
    ensures var r := AddSubtask(Some(subtasks), draft, freshId);
      && (AllWhitespace(draft) ==> r.subtasks == Some(subtasks))
      && (!AllWhitespace(draft) ==>
        TaskList.SubtaskStats(r.subtasks).total == |subtasks| + 1 &&
        TaskList.SubtaskStats(r.subtasks).completed == |Filter(subtasks, TaskList.SubtaskDone)|)
  {
    TrimSpec(draft);
    FilterAppend(subtasks, [Subtask(freshId, draft, false)], TaskList.SubtaskDone);
  }

  /** The Enter key in the tag input: the raw value is appended when non-empty, and the input cleared. */
  datatype TagEdit = TagEdit(tags: Option<seq<string>>, input: string)

  function TagKeyDown(tags: Option<seq<string>>, key: string, input: string): (r: TagEdit)
    ensures key != "Enter" || input == "" ==> r == TagEdit(tags, input)
    ensures key == "Enter" && input != "" ==>
      r.input == "" && r.tags == Some((if tags.Some? then tags.value else []) + [input])
  {
    if key == "Enter" && input != "" then
      TagEdit(Some((if tags.Some? then tags.value else []) + [input]), "")
    else TagEdit(tags, input)
  }

  /**
    The tag typed is kept as typed: no trimming, no lower-casing, and a tag
    already present is added a second time.
   */
  lemma TagKeptAsTyped(tags: seq<string>, input: string)
    requires input != ""
    ensures var r := TagKeyDown(Some(tags), "Enter", input).tags.value;
      Occ(r, input) == Occ(tags, input) + 1 && r[|r| - 1] == input
  {
    OccAppend(tags, input);
  }

  /**
    The remove buttons of the tag and of the subtask at `index` (both
    `splice(index, 1)` on a copy of the list).
   */
  function RemoveItemAt<T>(items: seq<T>, index: nat): (r: seq<T>)
    requires index < |items|
    ensures |r| == |items| - 1
    ensures forall j :: 0 <= j < |r| ==> r[j] == items[if j < index then j else j + 1]
    ensures multiset(r) + multiset{items[index]} == multiset(items)
  {
    RemoveAtInverse(items, index);
    RemoveAt(items, index)
  }

  /** Removing at an index deletes exactly that element: putting it back gives the list again. */
  lemma RemovedElementRestores<T>(items: seq<T>, index: nat)
    requires index < |items|
    ensures var r := RemoveItemAt(items, index);
      r[..index] + [items[index]] + r[index..] == items
  {
    RemoveAtInverse(items, index);
  }

  /** The checkbox of the subtask at `index`. */
  function SetSubtaskCompleted(subtasks: seq<Subtask>, index: nat, checked: bool): (r: seq<Subtask>)
    requires index < |subtasks|
    ensures |r| == |subtasks|
    ensures r[index].completed == checked && r[index].id == subtasks[index].id && r[index].title == subtasks[index].title
    ensures forall j :: 0 <= j < |subtasks| && j != index ==> r[j] == subtasks[j]
  {
    subtasks[index := subtasks[index].(completed := checked)]
  }

  /** The title field of the subtask at `index`. */
  function RenameSubtask(subtasks: seq<Subtask>, index: nat, title: string): (r: seq<Subtask>)
    requires index < |subtasks|
    ensures |r| == |subtasks|
    ensures r[index].title == title && r[index].id == subtasks[index].id && r[index].completed == subtasks[index].completed
    ensures forall j :: 0 <= j < |subtasks| && j != index ==> r[j] == subtasks[j]
  {
    subtasks[index := subtasks[index].(title := title)]
  }

  /**
    Ticking an open subtask raises the completed count by one, clearing a
    completed one lowers it by one, and any other click leaves it alone.
   */
  lemma CheckboxMovesCount(subtasks: seq<Subtask>, index: nat, checked: bool)
    requires index < |subtasks|
    ensures var before := |Filter(subtasks, TaskList.SubtaskDone)|;
      var after := |Filter(SetSubtaskCompleted(subtasks, index, checked), TaskList.SubtaskDone)|;
      after == before + (if checked then 1 else 0) - (if subtasks[index].completed then 1 else 0)
  {
    FilterUpdate(subtasks, index, subtasks[index].(completed := checked), TaskList.SubtaskDone);
  }

  /** Renaming never changes the completed count. */
  lemma RenameKeepsCount(subtasks: seq<Subtask>, index: nat, title: string)
    requires index < |subtasks|
    ensures |Filter(RenameSubtask(subtasks, index, title), TaskList.SubtaskDone)| == |Filter(subtasks, TaskList.SubtaskDone)|
  {
    FilterUpdate(subtasks, index, subtasks[index].(title := title), TaskList.SubtaskDone);
  }
}
