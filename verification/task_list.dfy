/**
  The list view of components/task-list.tsx: the progress counts, the
  deleted / show-completed / priority filter pipeline, the priority and
  status sorts, subtask statistics, the id-toggling of selection and
  expanded-subtask lists, and the two subtask handlers that call back into
  the page.
 */
module TaskList {
  import opened Base
  import opened JsText
  import opened StableSort
  import opened TaskTypes

  /** `tasks.filter(t => t.completed).length`. */
  function CompletedCount(tasks: seq<Task>): nat
  {
    |Filter(tasks, IsCompleted)|
  }

  /** `tasks.filter(t => !t.completed).length`. */
  function PendingCount(tasks: seq<Task>): nat
  {
    |Filter(tasks, IsPending)|
  }

  /** Every task is counted exactly once, as completed or as remaining. */
  lemma CountsPartition(tasks: seq<Task>)
    ensures CompletedCount(tasks) + PendingCount(tasks) == |tasks|
    ensures CompletedCount(tasks) <= |tasks| && PendingCount(tasks) <= |tasks|
  {
    FilterComplement(tasks, IsCompleted, IsPending);
  }

  /** The header percentage: 0 for an empty list, otherwise the rounded completed share. */
  function CompletionPercentage(tasks: seq<Task>): (r: int)
    ensures 0 <= r <= 100
    ensures |tasks| == 0 ==> r == 0
    ensures |tasks| > 0 ==>
      200 * CompletedCount(tasks) - |tasks| < 2 * |tasks| * r <= 200 * CompletedCount(tasks) + |tasks|
    ensures PendingCount(tasks) == 0 ==> r == (if |tasks| == 0 then 0 else 100)
  {
    CountsPartition(tasks);
    if |tasks| > 0 then RoundedPercent(CompletedCount(tasks), |tasks|) else 0
  }

  /**
    Whether the priority filter is in force: the empty string is falsy and
    "all" switches it off.
   */
  predicate PriorityFilterOn(filterPriority: string)
  {
    filterPriority != "" && filterPriority != "all"
  }

  /** `task.priority === filterPriority`: an exact, case-sensitive string comparison. */
  predicate PriorityMatches(t: Task, filterPriority: string)
  {
    t.priority.Some? && PriorityName(t.priority.value) == filterPriority
  }

  /** What the three filter steps ask of a task, taken together. */
  function KeepTask(deleted: seq<string>, showCompleted: bool, filterPriority: string): Task -> bool
  {
    (t: Task) => t.id !in deleted && (showCompleted || !t.completed) &&
         (!PriorityFilterOn(filterPriority) || PriorityMatches(t, filterPriority))
  }

  /**
    `currentFilteredTasks`: drop the tasks being deleted, then (when completed
    tasks are hidden) the completed ones, then (when a priority is selected)
    those whose priority is not that string.
   */
  function VisibleTasks(tasks: seq<Task>, deleted: seq<string>, showCompleted: bool, filterPriority: string): (r: seq<Task>)
    ensures forall t :: t in r <==> t in tasks && KeepTask(deleted, showCompleted, filterPriority)(t)
    ensures forall i :: 0 <= i < |r| ==> r[i].id !in deleted
    ensures !showCompleted ==> forall i :: 0 <= i < |r| ==> !r[i].completed
    ensures PriorityFilterOn(filterPriority) ==> forall i :: 0 <= i < |r| ==> PriorityMatches(r[i], filterPriority)
  {
    var live := Filter(tasks, (t: Task) => t.id !in deleted);
    var shown := if showCompleted then live else Filter(live, IsPending);
    if PriorityFilterOn(filterPriority) then Filter(shown, (t: Task) => PriorityMatches(t, filterPriority))
    else shown
  }

  /** The pipeline is a single filter with the conjoined condition, so its result keeps the list's order. */
  lemma VisibleIsOneFilter(tasks: seq<Task>, deleted: seq<string>, showCompleted: bool, filterPriority: string)
    ensures VisibleTasks(tasks, deleted, showCompleted, filterPriority) == Filter(tasks, KeepTask(deleted, showCompleted, filterPriority))
    ensures IsSubseq(VisibleTasks(tasks, deleted, showCompleted, filterPriority), tasks)
  {
    var notDeleted := (t: Task) => t.id !in deleted;
    var byPriority := (t: Task) => PriorityMatches(t, filterPriority);
    var live := Filter(tasks, notDeleted);
    var shownP := (t: Task) => t.id !in deleted && (showCompleted || !t.completed);
    var shown := if showCompleted then live else Filter(live, IsPending);
    if showCompleted {
      FilterCongruent(tasks, notDeleted, shownP);
    } else {
      FilterFilter(tasks, notDeleted, IsPending, shownP);
    }
    assert shown == Filter(tasks, shownP);
    var keep := KeepTask(deleted, showCompleted, filterPriority);
    if PriorityFilterOn(filterPriority) {
      FilterFilter(tasks, shownP, byPriority, keep);
    } else {
      FilterCongruent(tasks, shownP, keep);
    }
    FilterIsSubseq(tasks, keep);
  }

  /** The values of the four priority buttons. */
  const PriorityButtons: seq<string> := ["all", "high", "medium", "low"]

  /**
    The buttons compare their lower-case values with the capitalised
    priorities, so selecting "high", "medium" or "low" empties the list
    whatever the tasks are.
   */
  lemma LowercaseButtonsMatchNothing(tasks: seq<Task>, deleted: seq<string>, showCompleted: bool, button: string)
    requires button in PriorityButtons[1..]
    ensures VisibleTasks(tasks, deleted, showCompleted, button) == []
  {
    var r := VisibleTasks(tasks, deleted, showCompleted, button);
    assert PriorityFilterOn(button);
    NoPriorityIsLowercase(button);
    assert forall t :: t in r ==> PriorityMatches(t, button);
    NothingInIsEmpty(r);
  }

  /** The capitalised priority names differ from every lower-case button value. */
  lemma NoPriorityIsLowercase(button: string)
    requires button in PriorityButtons[1..]
    ensures forall p :: PriorityName(p) != button
  {
    forall p ensures PriorityName(p) != button {
      assert PriorityName(p)[0] != button[0];
    }
  }

  /** A sequence with no elements in it is empty. */
  lemma NothingInIsEmpty<T>(s: seq<T>)
    ensures (forall x :: x !in s) ==> s == []
  {
    if s != [] {
      assert s[0] in s;
    }
  }

  /** The button value meant for each priority. */
  function ButtonValue(p: Priority): (b: string)
    ensures b in PriorityButtons[1..]
    ensures b == Lower(PriorityName(p))
  {
    match p
    case High => "high"
    case Medium => "medium"
    case Low => "low"
  }

  /** The intended comparison: the task's priority, lower-cased, against the button value. */
  predicate ButtonMatches(t: Task, button: string)
  {
    t.priority.Some? && ButtonValue(t.priority.value) == button
  }

  /** The pipeline with the button comparison corrected. */
  function VisibleTasksFixed(tasks: seq<Task>, deleted: seq<string>, showCompleted: bool, button: string): (r: seq<Task>)
    ensures forall t :: t in r <==>
      t in tasks && t.id !in deleted && (showCompleted || !t.completed) && (!PriorityFilterOn(button) || ButtonMatches(t, button))
  {
    var live := Filter(tasks, (t: Task) => t.id !in deleted);
    var shown := if showCompleted then live else Filter(live, IsPending);
    if PriorityFilterOn(button) then Filter(shown, (t: Task) => ButtonMatches(t, button))
    else shown
  }

  /**
    With the corrected comparison, the button for priority `p` keeps exactly
    the tasks the capitalised filter value keeps, and no others.
   */
  lemma FixedButtonSelectsPriority(tasks: seq<Task>, deleted: seq<string>, showCompleted: bool, p: Priority)
    ensures forall t :: t in VisibleTasksFixed(tasks, deleted, showCompleted, ButtonValue(p)) <==>
      t in VisibleTasks(tasks, deleted, showCompleted, PriorityName(p))
    ensures forall t :: t in VisibleTasksFixed(tasks, deleted, showCompleted, ButtonValue(p)) ==> t.priority == Some(p)
  {
    assert PriorityFilterOn(ButtonValue(p)) && PriorityFilterOn(PriorityName(p));
    forall t: Task
      ensures ButtonMatches(t, ButtonValue(p)) <==> PriorityMatches(t, PriorityName(p))
      ensures ButtonMatches(t, ButtonValue(p)) ==> t.priority == Some(p)
    {
      if t.priority.Some? {
        ButtonValueInjective(t.priority.value, p);
      }
    }
  }

  lemma ButtonValueInjective(p: Priority, q: Priority)
    ensures ButtonValue(p) == ButtonValue(q) <==> p == q
    ensures PriorityName(p) == PriorityName(q) <==> p == q
  {
  }

  /** `priorityOrder[priority] ?? 0`. */
  function PriorityRank(t: Task): (k: int)
    ensures 0 <= k <= 3
    ensures k == 0 <==> t.priority.None?
  {
    match t.priority
    case None => 0
    case Some(High) => 3
    case Some(Medium) => 2
    case Some(Low) => 1
  }

  /** The sort key for "Sort by Status": incomplete (1) before completed (0). */
  function StatusKey(t: Task): int
  {
    if t.completed then 0 else 1
  }

  /** "Sort by Priority": a permutation with High first, then Medium, Low and no priority. */
  function SortByPriority(s: seq<Task>): (r: seq<Task>)
    ensures multiset(r) == multiset(s)
    ensures forall i, j :: 0 <= i < j < |r| ==> PriorityRank(r[i]) >= PriorityRank(r[j])
  {
    SortDesc(s, PriorityRank)
  }

  /** "Sort by Status": a permutation with every incomplete task before every completed one. */
  function SortByStatus(s: seq<Task>): (r: seq<Task>)
    ensures multiset(r) == multiset(s)
    ensures forall i, j :: 0 <= i < j < |r| && r[i].completed ==> r[j].completed
  {
    var r := SortDesc(s, StatusKey);
    assert forall i, j :: 0 <= i < j < |r| ==> StatusKey(r[i]) >= StatusKey(r[j]);
    r
  }

  /** The rank a priority value sorts by. */
  function RankOf(p: Option<Priority>): int
  {
    PriorityRank(Task("", "", None, false, None, p, None, None))
  }

  lemma RankOfInjective(p: Option<Priority>, q: Option<Priority>)
    ensures RankOf(p) == RankOf(q) <==> p == q
  {
  }

  /** Tasks of the same priority keep their filtered order (the sort is stable). */
  lemma PrioritySortStable(s: seq<Task>, p: Option<Priority>)
    ensures Filter(SortByPriority(s), (t: Task) => t.priority == p) == Filter(s, (t: Task) => t.priority == p)
  {
    var key := KeyIs(PriorityRank, RankOf(p));
    var same := (t: Task) => t.priority == p;
    var r := SortDesc(s, PriorityRank);
    SortStable(s, PriorityRank, RankOf(p));
    SamePrioritySameRank(p);
    FilterCongruent(r, same, key);
    FilterCongruent(s, same, key);
  }

  /** Having priority `p` is having `p`'s rank. */
  lemma SamePrioritySameRank(p: Option<Priority>)
    ensures forall t: Task :: (t.priority == p) == (PriorityRank(t) == RankOf(p))
  {
    forall t: Task ensures (t.priority == p) == (PriorityRank(t) == RankOf(p)) {
      RankOfInjective(t.priority, p);
      assert PriorityRank(t) == RankOf(t.priority);
    }
  }

  /** The incomplete tasks, and the completed ones, each keep their filtered order. */
  lemma StatusSortStable(s: seq<Task>)
    ensures Filter(SortByStatus(s), IsPending) == Filter(s, IsPending)
    ensures Filter(SortByStatus(s), IsCompleted) == Filter(s, IsCompleted)
  {
    var r := SortDesc(s, StatusKey);
    assert forall t: Task :: IsPending(t) == (StatusKey(t) == 1) && IsCompleted(t) == (StatusKey(t) == 0);
    SortStable(s, StatusKey, 1);
    SortStable(s, StatusKey, 0);
    FilterCongruent(r, IsPending, KeyIs(StatusKey, 1));
    FilterCongruent(s, IsPending, KeyIs(StatusKey, 1));
    FilterCongruent(r, IsCompleted, KeyIs(StatusKey, 0));
    FilterCongruent(s, IsCompleted, KeyIs(StatusKey, 0));
  }

  /** The status sort is the pending tasks followed by the completed ones. */
  lemma {:induction false} StatusSortSplits(s: seq<Task>)
    ensures SortByStatus(s) == Filter(s, IsPending) + Filter(s, IsCompleted)
  {
    var r := SortByStatus(s);
    var k := |Filter(r, IsPending)|;
    SplitAtFirstCompleted(r);
    StatusSortStable(s);
  }

  /** A list whose incomplete tasks all come first is its pending part followed by its completed part. */
  lemma {:induction false} SplitAtFirstCompleted(r: seq<Task>)
    requires forall i, j :: 0 <= i < j < |r| && r[i].completed ==> r[j].completed
    ensures r == Filter(r, IsPending) + Filter(r, IsCompleted)
    decreases |r|
  {
    if |r| > 0 {
      if r[0].completed {
        assert forall i :: 0 <= i < |r| ==> r[i].completed by {
          forall i | 0 < i < |r| ensures r[i].completed {
            assert r[0].completed;
          }
        }
        AllCompletedSplit(r);
      } else {
        var rest := r[1..];
        assert forall i, j :: 0 <= i < j < |rest| && rest[i].completed ==> rest[j].completed by {
          forall i, j | 0 <= i < j < |rest| && rest[i].completed ensures rest[j].completed {
            assert rest[i] == r[i + 1] && rest[j] == r[j + 1];
          }
        }
        SplitAtFirstCompleted(rest);
        PendingHeadSplit(r);
      }
    }
  }

  lemma PendingHeadSplit(r: seq<Task>)
    requires |r| > 0 && !r[0].completed
    requires r[1..] == Filter(r[1..], IsPending) + Filter(r[1..], IsCompleted)
    ensures r == Filter(r, IsPending) + Filter(r, IsCompleted)
  {
    assert r == [r[0]] + r[1..];
    HeadSplit(r[0], r[1..], IsPending, IsCompleted);
  }

  lemma HeadSplit<T(!new)>(x: T, rest: seq<T>, p: T -> bool, q: T -> bool)
    requires p(x) && !q(x)
    requires rest == Filter(rest, p) + Filter(rest, q)
    ensures [x] + rest == Filter([x] + rest, p) + Filter([x] + rest, q)
  {
    var s := [x] + rest;
    var fp, fq := Filter(rest, p), Filter(rest, q);
    assert s[1..] == rest;
    calc {
      s;
      [x] + (fp + fq);
      ([x] + fp) + fq;
      Filter(s, p) + fq;
      Filter(s, p) + Filter(s, q);
    }
  }

  lemma AllCompletedSplit(r: seq<Task>)
    requires forall i :: 0 <= i < |r| ==> r[i].completed
    ensures r == Filter(r, IsPending) + Filter(r, IsCompleted)
  {
    FilterAll(r, IsCompleted);
    NoneKept(r, IsPending);
  }

  lemma {:induction false} NoneKept(s: seq<Task>, p: Task -> bool)
    requires forall x :: x in s ==> !p(x)
    ensures Filter(s, p) == []
    decreases |s|
  {
    if |s| > 0 {
      assert s[0] in s;
      NoneKept(s[1..], p);
    }
  }

  /** `getSubtaskStats`' result. */
  datatype Stats = Stats(total: nat, completed: nat, percentage: int)

  function SubtaskDone(st: Subtask): bool { st.completed }

  function SubtaskOpen(st: Subtask): bool { !st.completed }

  /**
    `getSubtaskStats`: no subtasks give all zeros; otherwise the count of
    completed subtasks out of all, and that share rounded to a whole percent.
   */
  function SubtaskStats(subtasks: Option<seq<Subtask>>): (r: Stats)
    ensures subtasks.None? || |subtasks.value| == 0 ==> r == Stats(0, 0, 0)
    ensures subtasks.Some? ==> r.total == |subtasks.value| && r.completed == |Filter(subtasks.value, SubtaskDone)|
    ensures r.completed <= r.total && 0 <= r.percentage <= 100
    ensures r.total > 0 ==> 200 * r.completed - r.total < 2 * r.total * r.percentage <= 200 * r.completed + r.total
  {
    if subtasks.None? || |subtasks.value| == 0 then Stats(0, 0, 0)
    else
      var done := |Filter(subtasks.value, SubtaskDone)|;
      Stats(|subtasks.value|, done, RoundedPercent(done, |subtasks.value|))
  }

  /** The subtasks still open are exactly those the statistics do not count as completed. */
  lemma StatsOpenCount(subtasks: seq<Subtask>)
    ensures SubtaskStats(Some(subtasks)).total - SubtaskStats(Some(subtasks)).completed == |Filter(subtasks, SubtaskOpen)|
    ensures SubtaskStats(Some(subtasks)).percentage == 0 <== |Filter(subtasks, SubtaskOpen)| == |subtasks|
  {
    FilterComplement(subtasks, SubtaskDone, SubtaskOpen);
  }

  /**
    `handleTaskSelect` / `toggleSubtasks`: remove every copy of the id when it
    is present, append it otherwise.
   */
  function Toggle(ids: seq<string>, id: string): (r: seq<string>)
    ensures id in r <==> id !in ids
    ensures forall y :: y != id ==> (y in r <==> y in ids)
    ensures forall y :: y != id ==> Occ(r, y) == Occ(ids, y)
  {
    if id in ids then RemoveAll(ids, id)
    else
      OccAppend(ids, id);
      ids + [id]
  }

  /**
    Toggling twice restores membership; the list itself is restored when the
    id was absent (a present id comes back at the end).
   */
  lemma ToggleTwice(ids: seq<string>, id: string)
    ensures forall y :: y in Toggle(Toggle(ids, id), id) <==> y in ids
    ensures id !in ids ==> Toggle(Toggle(ids, id), id) == ids
    ensures id in ids ==> Toggle(Toggle(ids, id), id) == RemoveAll(ids, id) + [id]
  {
    if id !in ids {
      RemoveAllAppendSelf(ids, id);
      RemoveAllAbsent(ids, id);
    }
  }

  /** A call of `onAddSubtask(taskId, title)`. */
  datatype AddSubtaskCall = AddSubtaskCall(taskId: string, title: string)

  /** What `handleAddSubtask` does: the callback made, if any, and the new drafts. */
  datatype AddSubtaskResult = AddSubtaskResult(call: Option<AddSubtaskCall>, drafts: map<string, string>)

  /**
    `handleAddSubtask(taskId)`: the task's draft, trimmed, goes to the
    callback when it is non-empty and a callback was given; then only that
    task's draft is cleared.
   */
  function HandleAddSubtask(drafts: map<string, string>, taskId: string, hasCallback: bool): (r: AddSubtaskResult)
    ensures r.call.Some? <==> hasCallback && taskId in drafts && Trim(drafts[taskId]) != ""
    ensures r.call.Some? ==> r.call.value == AddSubtaskCall(taskId, Trim(drafts[taskId])) && taskId in r.drafts && r.drafts[taskId] == ""
    ensures r.call.None? ==> r.drafts == drafts
    ensures r.drafts.Keys == drafts.Keys + (if r.call.Some? then {taskId} else {})
    ensures forall k :: k in drafts && k != taskId ==> k in r.drafts && r.drafts[k] == drafts[k]
  {
    if taskId in drafts && Trim(drafts[taskId]) != "" && hasCallback then
      AddSubtaskResult(Some(AddSubtaskCall(taskId, Trim(drafts[taskId]))), drafts[taskId := ""])
    else AddSubtaskResult(None, drafts)
  }

  /** A whitespace-only draft never reaches the callback, and one with any other character does. */
  lemma AddSubtaskNeedsText(drafts: map<string, string>, taskId: string)
    requires taskId in drafts
    ensures HandleAddSubtask(drafts, taskId, true).call.Some? <==> !AllWhitespace(drafts[taskId])
  {
    TrimSpec(drafts[taskId]);
  }

  /** Position of the first task with that id, or the list length when there is none. */
  function FindIndex(tasks: seq<Task>, id: string): (k: nat)
    ensures k <= |tasks|
    ensures forall j :: 0 <= j < k ==> tasks[j].id != id
    ensures k < |tasks| ==> tasks[k].id == id
    decreases |tasks|
  {
    if |tasks| == 0 || tasks[0].id == id then 0 else 1 + FindIndex(tasks[1..], id)
  }

  /** `tasks.find(t => t.id === taskId)`: the first task with that id. */
  function FindTask(tasks: seq<Task>, id: string): (r: Option<Task>)
    ensures r.None? <==> forall i :: 0 <= i < |tasks| ==> tasks[i].id != id
    ensures r.Some? ==> r.value in tasks && r.value.id == id
    ensures r.Some? ==> exists k :: 0 <= k < |tasks| && tasks[k] == r.value && forall j :: 0 <= j < k ==> tasks[j].id != id
  {
    var k := FindIndex(tasks, id);
    if k < |tasks| then Some(tasks[k]) else None
  }

  /** A call of `onToggleSubtask(taskId, subtaskId, completed)`. */
  datatype ToggleSubtaskCall = ToggleSubtaskCall(taskId: string, subtaskId: string, completed: bool)

  /** The calls that mark each of `subs` complete, in order. */
  function MarkCompleteCalls(taskId: string, subs: seq<Subtask>): (r: seq<ToggleSubtaskCall>)
    ensures |r| == |subs|
    ensures forall i :: 0 <= i < |subs| ==> r[i] == ToggleSubtaskCall(taskId, subs[i].id, true)
  {
    seq(|subs|, i requires 0 <= i < |subs| => ToggleSubtaskCall(taskId, subs[i].id, true))
  }

  /**
    `handleCompleteAllSubtasks(taskId)`: walks the first matching task's
    subtasks and asks the page to complete each one not yet completed.
   */
  method CompleteAllSubtasks(tasks: seq<Task>, taskId: string, hasCallback: bool) returns (calls: seq<ToggleSubtaskCall>)
    ensures var found := FindTask(tasks, taskId);
      if found.Some? && found.value.subtasks.Some? && hasCallback
      then calls == MarkCompleteCalls(taskId, Filter(found.value.subtasks.value, SubtaskOpen))
      else calls == []
  {
    calls := [];
    var found := FindTask(tasks, taskId);
    if found.None? || found.value.subtasks.None? || !hasCallback {
      return;
    }
    var subs := found.value.subtasks.value;
    var i := 0;
    while i < |subs|
      invariant 0 <= i <= |subs|
      invariant calls == MarkCompleteCalls(taskId, Filter(subs[..i], SubtaskOpen))
    {
      CompleteAllStep(taskId, subs, i);
      if !subs[i].completed {
        calls := calls + [ToggleSubtaskCall(taskId, subs[i].id, true)];
      }
      i := i + 1;
    }
    assert subs[..i] == subs;
  }

  /** One more subtask walked adds its call when it is open and nothing otherwise. */
  lemma CompleteAllStep(taskId: string, subs: seq<Subtask>, i: nat)
    requires i < |subs|
    ensures MarkCompleteCalls(taskId, Filter(subs[..i + 1], SubtaskOpen)) ==
      MarkCompleteCalls(taskId, Filter(subs[..i], SubtaskOpen)) +
      (if subs[i].completed then [] else [ToggleSubtaskCall(taskId, subs[i].id, true)])
  {
    var before := Filter(subs[..i], SubtaskOpen);
    var here := Filter([subs[i]], SubtaskOpen);
    FilterAppend(subs[..i], [subs[i]], SubtaskOpen);
    assert subs[..i + 1] == subs[..i] + [subs[i]];
    assert [subs[i]][1..] == [];
    assert Filter(subs[..i + 1], SubtaskOpen) == before + here;
    var a := MarkCompleteCalls(taskId, before + here);
    var b := MarkCompleteCalls(taskId, before) + MarkCompleteCalls(taskId, here);
    assert |a| == |b|;
    forall k | 0 <= k < |a| ensures a[k] == b[k] {
      if k < |before| {
        assert (before + here)[k] == before[k];
      } else {
        assert (before + here)[k] == here[k - |before|];
      }
    }
    assert a == b;
  }

  /** Each open subtask is asked for exactly once and completed subtasks never are. */
  lemma CompleteAllTargetsOpenSubtasks(taskId: string, subs: seq<Subtask>, st: Subtask)
    requires st in subs
    ensures (exists c :: c in MarkCompleteCalls(taskId, Filter(subs, SubtaskOpen)) && c.subtaskId == st.id) <== !st.completed
    ensures |MarkCompleteCalls(taskId, Filter(subs, SubtaskOpen))| + |Filter(subs, SubtaskDone)| == |subs|
  {
    var open := Filter(subs, SubtaskOpen);
    FilterComplement(subs, SubtaskDone, SubtaskOpen);
    if !st.completed {
      assert st in open;
      var i :| 0 <= i < |open| && open[i] == st;
      assert MarkCompleteCalls(taskId, open)[i].subtaskId == st.id;
    }
  }
}
