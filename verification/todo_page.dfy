/**
  The page container of components/todo-page-client.tsx: mapping a task as
  the REST API returns it into the client's `Task`, the effect that derives
  `filteredTasks` from the search box, the sidebar filter and the active tag,
  and the optimistic update of `handleToggleComplete`.
 */
module TodoPage {
  import opened Base
  import opened JsText
  import opened TaskTypes

  /**
    The fields of an API task that the mapper reads or spreads through.
    `priority` is the numeric code the API sends; `dueDate` is the date the
    mapper reads, already turned into a timestamp (absent when missing or
    an empty string).
   */
  datatype ApiTask = ApiTask(
    id: int,
    title: string,
    description: Option<string>,
    completed: bool,
    dueDate: Option<int>,
    priority: int,
    tags: Option<seq<string>>,
    subtasks: Option<seq<Subtask>>)

  /** `priorityMap[code]`: 1, 2 and 3 name a priority; 0 and every other code are `undefined`. */
  function PriorityOfCode(code: int): (r: Option<Priority>)
    ensures r.Some? <==> 1 <= code <= 3
    ensures r == Some(Low) <==> code == 1
    ensures r == Some(Medium) <==> code == 2
    ensures r == Some(High) <==> code == 3
  {
    if code == 1 then Some(Low)
    else if code == 2 then Some(Medium)
    else if code == 3 then Some(High)
    else None
  }

  /** `mapApiTaskToTask`: the id becomes its decimal string, the code a priority, the rest is kept. */
  function MapApiTask(a: ApiTask): (t: Task)
    ensures ParseDecimal(t.id) == a.id
    ensures t.priority == PriorityOfCode(a.priority)
    ensures t.title == a.title && t.description == a.description && t.completed == a.completed
    ensures t.dueDate == a.dueDate && t.tags == a.tags && t.subtasks == a.subtasks
  {
    DecimalRoundTrip(a.id);
    Task(DecimalString(a.id), a.title, a.description, a.completed, a.dueDate, PriorityOfCode(a.priority), a.tags, a.subtasks)
  }

  /** Distinct API ids stay distinct client ids, so the string ids still identify tasks. */
  lemma MapKeepsIdsDistinct(a: ApiTask, b: ApiTask)
    ensures MapApiTask(a).id == MapApiTask(b).id <==> a.id == b.id
  {
    if MapApiTask(a).id == MapApiTask(b).id {
      DecimalInjective(a.id, b.id);
    }
  }

  /** `data.map(mapApiTaskToTask)`. */
  function MapAll(data: seq<ApiTask>): (r: seq<Task>)
    ensures |r| == |data|
    ensures forall i :: 0 <= i < |data| ==> r[i] == MapApiTask(data[i])
  {
    seq(|data|, i requires 0 <= i < |data| => MapApiTask(data[i]))
  }

  /** The search step: the lower-cased query in the lower-cased title or description. */
  predicate MatchesSearch(t: Task, query: string)
  {
    Includes(Lower(t.title), Lower(query)) ||
    (t.description.Some? && Includes(Lower(t.description.value), Lower(query)))
  }

  /**
    The "dueSoon" filter: a due date whose day, counted from today's local
    midnight, lies between today and seven days from now inclusive, on an
    incomplete task.
   */
  predicate DueSoonByDay(t: Task, now: int)
  {
    t.dueDate.Some? && DayOf(now) <= DayOf(t.dueDate.value) <= DayOf(now) + 7 && !t.completed
  }

  /** The sidebar filter step for each `FilterType`. */
  predicate MatchesFilter(t: Task, filter: FilterType, now: int)
  {
    match filter
    case AllTasks => true
    case CompletedOnly => t.completed
    case PendingOnly => !t.completed
    case DueSoon => DueSoonByDay(t, now)
    case HighPriority => t.priority == Some(High) && !t.completed
    case PriorityIs(p) => t.priority == Some(p)
  }

  /** `task.tags?.includes(activeTag)`. */
  predicate HasTag(t: Task, tag: string)
  {
    t.tags.Some? && tag in t.tags.value
  }

  /** The three steps together; an empty query and an empty or null tag switch their step off. */
  function PageKeep(query: string, filter: FilterType, activeTag: Option<string>, now: int): Task -> bool
  {
    (t: Task) => (query == "" || MatchesSearch(t, query)) && MatchesFilter(t, filter, now) &&
      (activeTag.None? || activeTag.value == "" || HasTag(t, activeTag.value))
  }

  /** The filtering effect: search, then the sidebar filter, then the tag. */
  function FilteredTasks(tasks: seq<Task>, query: string, filter: FilterType, activeTag: Option<string>, now: int): (r: seq<Task>)
    ensures forall t :: t in r <==> t in tasks && PageKeep(query, filter, activeTag, now)(t)
  {
    var searched := if query == "" then tasks else Filter(tasks, (t: Task) => MatchesSearch(t, query));
    var filtered := if filter == AllTasks then searched else Filter(searched, (t: Task) => MatchesFilter(t, filter, now));
    if activeTag.None? || activeTag.value == "" then filtered
    else Filter(filtered, (t: Task) => HasTag(t, activeTag.value))
  }

  /** The effect equals one filter with the conjoined condition: a subsequence of `tasks` in their order. */
  lemma FilteredIsOneFilter(tasks: seq<Task>, query: string, filter: FilterType, activeTag: Option<string>, now: int)
    ensures FilteredTasks(tasks, query, filter, activeTag, now) == Filter(tasks, PageKeep(query, filter, activeTag, now))
    ensures IsSubseq(FilteredTasks(tasks, query, filter, activeTag, now), tasks)
  {
    var both := (t: Task) => (query == "" || MatchesSearch(t, query)) && MatchesFilter(t, filter, now);
    var keep := PageKeep(query, filter, activeTag, now);
    SearchThenFilter(tasks, query, filter, now);
    if activeTag.None? || activeTag.value == "" {
      FilterCongruent(tasks, both, keep);
    } else {
      FilterFilter(tasks, both, (t: Task) => HasTag(t, activeTag.value), keep);
    }
    FilterIsSubseq(tasks, keep);
  }

  /** The first two steps together are one filter with both conditions. */
  lemma SearchThenFilter(tasks: seq<Task>, query: string, filter: FilterType, now: int)
    ensures var searched := if query == "" then tasks else Filter(tasks, (t: Task) => MatchesSearch(t, query));
      (if filter == AllTasks then searched else Filter(searched, (t: Task) => MatchesFilter(t, filter, now))) ==
      Filter(tasks, (t: Task) => (query == "" || MatchesSearch(t, query)) && MatchesFilter(t, filter, now))
  {
    var search := (t: Task) => query == "" || MatchesSearch(t, query);
    var byFilter := (t: Task) => MatchesFilter(t, filter, now);
    var both := (t: Task) => (query == "" || MatchesSearch(t, query)) && MatchesFilter(t, filter, now);
    var searched := if query == "" then tasks else Filter(tasks, (t: Task) => MatchesSearch(t, query));
    if query == "" {
      FilterAll(tasks, search);
    } else {
      FilterCongruent(tasks, (t: Task) => MatchesSearch(t, query), search);
    }
    assert searched == Filter(tasks, search);
    if filter == AllTasks {
      FilterCongruent(tasks, search, both);
    } else {
      FilterFilter(tasks, search, byFilter, both);
    }
  }

  /** With no query, the "all" filter and no tag, every task is shown, in order. */
  lemma NoFilterShowsAll(tasks: seq<Task>, now: int)
    ensures FilteredTasks(tasks, "", AllTasks, None, now) == tasks
  {
  }

  /** The pending and completed filters split the list between them. */
  lemma StatusFiltersPartition(tasks: seq<Task>, now: int)
    ensures |FilteredTasks(tasks, "", CompletedOnly, None, now)| + |FilteredTasks(tasks, "", PendingOnly, None, now)| == |tasks|
  {
    var c := (t: Task) => MatchesFilter(t, CompletedOnly, now);
    var p := (t: Task) => MatchesFilter(t, PendingOnly, now);
    FilterComplement(tasks, c, p);
  }

  /**
    `handleToggleComplete(startedTask)`: every task carrying the started
    task's id is replaced by the started task with `completed` flipped.
   */
  function ToggleInList(tasks: seq<Task>, started: Task): (r: seq<Task>)
    ensures |r| == |tasks|
    ensures forall i :: 0 <= i < |tasks| && tasks[i].id == started.id ==>
      r[i].completed == !started.completed && r[i].(completed := started.completed) == started
    ensures forall i :: 0 <= i < |tasks| && tasks[i].id != started.id ==> r[i] == tasks[i]
  {
    seq(|tasks|, i requires 0 <= i < |tasks| =>
      if tasks[i].id == started.id then started.(completed := !started.completed) else tasks[i])
  }

  /** Ids are unique in the list. */
  predicate UniqueIds(tasks: seq<Task>)
  {
    forall i, j :: 0 <= i < j < |tasks| ==> tasks[i].id != tasks[j].id
  }

  /**
    Toggling a listed task and then toggling its updated copy gives back the
    original list: the optimistic update is undone by the same action.
   */
  lemma ToggleTwiceRestores(tasks: seq<Task>, k: nat)
    requires k < |tasks| && UniqueIds(tasks)
    ensures var once := ToggleInList(tasks, tasks[k]);
      ToggleInList(once, once[k]) == tasks
  {
    var once := ToggleInList(tasks, tasks[k]);
    var twice := ToggleInList(once, once[k]);
    forall i | 0 <= i < |tasks| ensures twice[i] == tasks[i] {
      if i != k {
        assert tasks[i].id != tasks[k].id;
      }
    }
  }

  /** The optimistic toggle keeps ids, so uniqueness survives it. */
  lemma ToggleKeepsUniqueIds(tasks: seq<Task>, started: Task)
    requires UniqueIds(tasks)
    ensures UniqueIds(ToggleInList(tasks, started))
    ensures forall i :: 0 <= i < |tasks| ==> ToggleInList(tasks, started)[i].id == tasks[i].id
  {
  }
}
