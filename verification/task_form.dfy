/**
  The new-task form of components/task-form.tsx: its validation schema, the
  four-valued priority select with its numeric codes, the request body built
  on submit, and the message shown when the request fails.
 */
module TaskForm {
  import opened Base
  import opened JsText
  import opened TaskTypes
  import TodoPage

  /** The values of the priority select (the schema's enum). */
  datatype Level = NoLevel | LowLevel | MediumLevel | HighLevel

  /** The select value of each level. */
  function LevelName(l: Level): string
  {
    match l
    case NoLevel => "none"
    case LowLevel => "low"
    case MediumLevel => "medium"
    case HighLevel => "high"
  }

  /** Reads a select value back; any string but the four lower-case names is not a level. */
  function ParseLevel(s: string): (r: Option<Level>)
    ensures r.Some? ==> LevelName(r.value) == s
    ensures r.None? <==> s !in {"none", "low", "medium", "high"}
  {
    if s == "none" then Some(NoLevel)
    else if s == "low" then Some(LowLevel)
    else if s == "medium" then Some(MediumLevel)
    else if s == "high" then Some(HighLevel)
    else None
  }

  /** `priorityMap[level]`: none 0, low 1, medium 2, high 3. */
  function LevelCode(l: Level): (c: int)
    ensures 0 <= c <= 3
    ensures c == 0 <==> l == NoLevel
  {
    match l
    case NoLevel => 0
    case LowLevel => 1
    case MediumLevel => 2
    case HighLevel => 3
  }

  /** The level a code in 0..3 stands for; other codes stand for none. */
  function LevelOfCode(n: int): (r: Option<Level>)
    ensures r.Some? <==> 0 <= n <= 3
    ensures r.Some? ==> LevelCode(r.value) == n
  {
    if n == 0 then Some(NoLevel)
    else if n == 1 then Some(LowLevel)
    else if n == 2 then Some(MediumLevel)
    else if n == 3 then Some(HighLevel)
    else None
  }

  /** `priorityMap[key]` over string keys: defined on the four lower-case names only. */
  function CodeOfName(key: string): (r: Option<int>)
    ensures r.Some? <==> key in {"none", "low", "medium", "high"}
    ensures r.Some? ==> 0 <= r.value <= 3
  {
    match ParseLevel(key)
    case None => None
    case Some(l) => Some(LevelCode(l))
  }

  /** The select value round-trips through its name and through its code. */
  lemma LevelRoundTrip(l: Level)
    ensures ParseLevel(LevelName(l)) == Some(l)
    ensures LevelOfCode(LevelCode(l)) == Some(l)
    ensures CodeOfName(LevelName(l)) == Some(LevelCode(l))
  {
  }

  /** Distinct levels are sent as distinct codes, and every code 0..3 is sent by some level. */
  lemma LevelCodeBijective(l: Level, m: Level, n: int)
    ensures LevelCode(l) == LevelCode(m) ==> l == m
    ensures 0 <= n <= 3 ==> exists k :: LevelCode(k) == n
  {
    if 0 <= n <= 3 {
      assert LevelCode(LevelOfCode(n).value) == n;
    }
  }

  /**
    A level sent as a code and read back by the page's task mapper: "none"
    becomes an absent priority, every other level the priority whose
    capitalised name lower-cases to the select value.
   */
  lemma CreatedPriorityReadBack(l: Level)
    ensures TodoPage.PriorityOfCode(LevelCode(l)).None? <==> l == NoLevel
    ensures l != NoLevel ==> Lower(PriorityName(TodoPage.PriorityOfCode(LevelCode(l)).value)) == LevelName(l)
  {
    match l
    case NoLevel =>
    case LowLevel =>
      assert Lower("Low") == "low";
    case MediumLevel =>
      assert Lower("Medium") == "medium";
    case HighLevel =>
      assert Lower("High") == "high";
  }

  /** The schema's only constraint on the title: at least two characters. */
  predicate TitleValid(title: string)
  {
    |title| >= 2
  }

  const TitleMessage: string := "Title must be at least 2 characters."

  /** The form values; the optional fields start as "" and stay defined once edited. */
  datatype FormValues = FormValues(
    title: string,
    description: Option<string>,
    priority: Level,
    tags: Option<string>,
    dueDate: Option<string>)

  /** The values the form starts from and is reset to. */
  const Defaults: FormValues := FormValues("", Some(""), NoLevel, Some(""), Some(""))

  /** The body of the POST request. */
  datatype TaskPayload = TaskPayload(
    title: string,
    description: Option<string>,
    priority: int,
    tags: Option<seq<string>>,
    dueDate: Option<string>,
    completed: bool)

  /**
    `taskData`: absent or empty description and due date become null, the
    level its code, a non-empty tag string a one-element array, and a new
    task is never completed.
   */
  function TaskData(v: FormValues): (r: TaskPayload)
    ensures r.title == v.title && r.priority == LevelCode(v.priority) && !r.completed
    ensures r.description == OrNull(v.description) && r.dueDate == OrNull(v.dueDate)
    ensures r.tags.None? <==> v.tags.None? || v.tags.value == ""
    ensures r.tags.Some? ==> |r.tags.value| == 1 && r.tags.value[0] == v.tags.value
  {
    TaskPayload(
      v.title,
      OrNull(v.description),
      LevelCode(v.priority),
      if v.tags.None? || v.tags.value == "" then None else Some([v.tags.value]),
      OrNull(v.dueDate),
      false)
  }

  /** Reads a request body back into form values, a null field as the empty string. */
  function FormOf(p: TaskPayload): FormValues
  {
    FormValues(
      p.title,
      Some(if p.description.Some? then p.description.value else ""),
      if LevelOfCode(p.priority).Some? then LevelOfCode(p.priority).value else NoLevel,
      Some(if p.tags.Some? && |p.tags.value| > 0 then p.tags.value[0] else ""),
      Some(if p.dueDate.Some? then p.dueDate.value else ""))
  }

  /** A form whose optional fields are all defined loses nothing on the way into the request. */
  lemma TaskDataLosesNothing(v: FormValues)
    requires v.description.Some? && v.tags.Some? && v.dueDate.Some?
    ensures FormOf(TaskData(v)) == v
  {
    LevelRoundTrip(v.priority);
  }

  /** A tag string is sent whole: commas and spaces do not split it into several tags. */
  lemma TagsNotSplit(v: FormValues)
    requires v.tags.Some? && v.tags.value != ""
    ensures TaskData(v).tags == Some([v.tags.value])
  {
  }

  /** What the zod resolver lets through: invalid values never reach `onSubmit`. */
  datatype Submission = Rejected(message: string) | Posted(payload: TaskPayload)

  function Submit(v: FormValues): (r: Submission)
    ensures r.Posted? <==> TitleValid(v.title)
    ensures r.Rejected? ==> r.message == TitleMessage
    ensures r.Posted? ==> r.payload == TaskData(v)
  {
    if TitleValid(v.title) then Posted(TaskData(v)) else Rejected(TitleMessage)
  }

  /** The untouched form is rejected: its title is empty. */
  lemma DefaultsRejected()
    ensures Submit(Defaults) == Rejected(TitleMessage)
  {
  }

  /** What `onSubmit` can catch: an `Error` with its message, or some other thrown value. */
  datatype Thrown = ErrorObject(message: string) | OtherValue

  const OfflineMessage: string := "Cannot connect to server. Check your internet connection."
  const UnexpectedMessage: string := "An unexpected error occurred"
  const FetchFailure: string := "Failed to fetch"

  /** The message the catch block shows. */
  function ErrorMessage(e: Thrown): (m: string)
    ensures e.OtherValue? ==> m == UnexpectedMessage
    ensures e.ErrorObject? && Includes(e.message, FetchFailure) ==> m == OfflineMessage
    ensures e.ErrorObject? && !Includes(e.message, FetchFailure) ==> m == e.message
  {
    match e
    case OtherValue => UnexpectedMessage
    case ErrorObject(msg) => if Includes(msg, FetchFailure) then OfflineMessage else msg
  }

  /**
    The connectivity message is shown only for an `Error` that names the
    fetch failure or carries that very message; every other `Error` shows
    its own message.
   */
  lemma OfflineOnlyForFetchFailure(e: Thrown)
    ensures ErrorMessage(e) == OfflineMessage <==>
      e.ErrorObject? && (Includes(e.message, FetchFailure) || e.message == OfflineMessage)
    ensures e.ErrorObject? && ErrorMessage(e) != OfflineMessage ==> ErrorMessage(e) == e.message
  {
    assert UnexpectedMessage != OfflineMessage by {
      assert |UnexpectedMessage| != |OfflineMessage|;
    }
  }

  /** What the form holds after a submit: the error shown, and whether it was reset. */
  datatype AfterSubmit = AfterSubmit(values: FormValues, error: Option<string>, taskAdded: bool)

  /**
    A valid submit with the request's outcome as a parameter: `None` when
    the server answered with an ok status, otherwise what was thrown. On
    success the form is reset and the parent told; on failure the values
    stay and the message is shown.
   */
  function Settle(v: FormValues, outcome: Option<Thrown>): (r: AfterSubmit)
    ensures r.taskAdded <==> outcome.None?
    ensures r.taskAdded ==> r.values == Defaults && r.error.None?
    ensures !r.taskAdded ==> r.values == v && r.error == Some(ErrorMessage(outcome.value))
  {
    match outcome
    case None => AfterSubmit(Defaults, None, true)
    case Some(e) => AfterSubmit(v, Some(ErrorMessage(e)), false)
  }
}
