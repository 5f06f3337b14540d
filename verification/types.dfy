/**
  The task shapes shared by the task components (types/index.ts).
  Dates are integer millisecond timestamps; attachments, comments and the
  project field are not carried because no modelled operation reads them.
 */
module TaskTypes {
  import opened Base

  /** The capitalised priority a `Task` carries ("High" | "Medium" | "Low"). */
  datatype Priority = High | Medium | Low

  datatype Subtask = Subtask(id: string, title: string, completed: bool)

  datatype Task = Task(
    id: string,
    title: string,
    description: Option<string>,
    completed: bool,
    dueDate: Option<int>,
    priority: Option<Priority>,
    tags: Option<seq<string>>,
    subtasks: Option<seq<Subtask>>)

  /** The string value of a priority, as compared with `===` in the filters. */
  function PriorityName(p: Priority): string
  {
    match p
    case High => "High"
    case Medium => "Medium"
    case Low => "Low"
  }

  /** The sidebar's `FilterType`. */
  datatype FilterType = AllTasks | CompletedOnly | PendingOnly | DueSoon | HighPriority | PriorityIs(p: Priority)

  function IsCompleted(t: Task): bool { t.completed }

  function IsPending(t: Task): bool { !t.completed }

  /** Milliseconds in a day; local midnight is modelled as a multiple of it. */
  const MsPerDay: int := 86_400_000

  /** Day number of a timestamp (the date with its time of day cleared). */
  function DayOf(ms: int): int
  {
    ms / MsPerDay
  }
}
