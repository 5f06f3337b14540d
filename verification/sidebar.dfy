/**
  The statistics panel of components/Sidebar.tsx: totals, the due-soon and
  per-priority counters, the tag counts with the five most used tags, and the
  progress percentage.
 */
module Sidebar {
  import opened Base
  import opened StableSort
  import opened TaskTypes
  import opened TaskList
  import opened TodoPage

  /** Local midnight of the day containing `now`. */
  function Midnight(now: int): int
  {
    DayOf(now) * MsPerDay
  }

  /**
    The sidebar's due-soon test: the raw due time (not normalised to its
    day) between today's midnight and the midnight seven days later,
    inclusive, on an incomplete task.
   */
  predicate DueSoonByTime(t: Task, now: int)
  {
    t.dueDate.Some? && Midnight(now) <= t.dueDate.value <= Midnight(now) + 7 * MsPerDay && !t.completed
  }

  /** An incomplete task of priority `p`. */
  predicate PendingOf(t: Task, p: Priority)
  {
    t.priority == Some(p) && !t.completed
  }

  datatype SidebarStats = SidebarStats(
    total: nat,
    completed: nat,
    pending: int,
    dueSoon: nat,
    high: nat,
    medium: nat,
    low: nat,
    progress: int)

  /** The counters the sidebar shows for a task list at time `now`. */
  function Stats(tasks: seq<Task>, now: int): (r: SidebarStats)
    ensures r.total == |tasks| && r.completed == CompletedCount(tasks)
    ensures r.pending == r.total - r.completed == PendingCount(tasks)
    ensures 0 <= r.completed <= r.total
    ensures r.dueSoon == |Filter(tasks, (t: Task) => DueSoonByTime(t, now))| <= r.pending
    ensures r.high == |Filter(tasks, (t: Task) => PendingOf(t, High))|
    ensures r.medium == |Filter(tasks, (t: Task) => PendingOf(t, Medium))|
    ensures r.low == |Filter(tasks, (t: Task) => PendingOf(t, Low))|
    ensures r.high + r.medium + r.low <= r.pending
    ensures 0 <= r.progress <= 100 && (r.total == 0 ==> r.progress == 0)
    ensures r.total > 0 && r.pending == 0 ==> r.progress == 100
  {
    var high := (t: Task) => PendingOf(t, High);
    var medium := (t: Task) => PendingOf(t, Medium);
    var low := (t: Task) => PendingOf(t, Low);
    var soon := (t: Task) => DueSoonByTime(t, now);
    CountsPartition(tasks);
    FilterDisjointSum(tasks, high, medium, low, IsPending);
    FilterMonotone(tasks, soon, IsPending);
    SidebarStats(
      |tasks|,
      CompletedCount(tasks),
      |tasks| - CompletedCount(tasks),
      |Filter(tasks, soon)|,
      |Filter(tasks, high)|,
      |Filter(tasks, medium)|,
      |Filter(tasks, low)|,
      CompletionPercentage(tasks))
  }

  /**
    The counters are running counts: one more task adds one to each counter
    whose test it passes and leaves every other counter as it was.
   */
  lemma StatsAppend(tasks: seq<Task>, t: Task, now: int)
    ensures var a := Stats(tasks, now); var b := Stats(tasks + [t], now);
      && b.total == a.total + 1
      && b.completed == a.completed + (if t.completed then 1 else 0)
      && b.dueSoon == a.dueSoon + (if DueSoonByTime(t, now) then 1 else 0)
      && b.high == a.high + (if PendingOf(t, High) then 1 else 0)
      && b.medium == a.medium + (if PendingOf(t, Medium) then 1 else 0)
      && b.low == a.low + (if PendingOf(t, Low) then 1 else 0)
  {
    FilterCountAppend(tasks, t, (t: Task) => DueSoonByTime(t, now));
    FilterCountAppend(tasks, t, (t: Task) => PendingOf(t, High));
    FilterCountAppend(tasks, t, (t: Task) => PendingOf(t, Medium));
    FilterCountAppend(tasks, t, (t: Task) => PendingOf(t, Low));
    FilterCountAppend(tasks, t, IsCompleted);
  }

  /** The "High Priority" badge and the High row count what the page's highPriority filter shows. */
  lemma HighCountIsHighFilter(tasks: seq<Task>, now: int)
    ensures Stats(tasks, now).high == |FilteredTasks(tasks, "", HighPriority, None, now)|
  {
    FilterCongruent(tasks, (t: Task) => PendingOf(t, High), (t: Task) => MatchesFilter(t, HighPriority, now));
  }

  /**
    The Medium and Low rows count only incomplete tasks, while the page's
    Medium and Low filters also show completed ones.
   */
  lemma PriorityRowsAtMostFilter(tasks: seq<Task>, now: int, p: Priority)
    ensures |Filter(tasks, (t: Task) => PendingOf(t, p))| <= |FilteredTasks(tasks, "", PriorityIs(p), None, now)|
  {
    FilterMonotone(tasks, (t: Task) => PendingOf(t, p), (t: Task) => MatchesFilter(t, PriorityIs(p), now));
  }

  lemma DayLowerBound(ms: int, d: int)
    requires d * MsPerDay <= ms
    ensures d <= DayOf(ms)
  {
  }

  lemma DayUpperBound(ms: int, d: int)
    requires ms <= d * MsPerDay
    ensures DayOf(ms) <= d
  {
  }

  /** A task the sidebar counts as due soon is one the page's dueSoon filter shows. */
  lemma DueSoonByTimeIsByDay(t: Task, now: int)
    requires DueSoonByTime(t, now)
    ensures DueSoonByDay(t, now)
  {
    DayLowerBound(t.dueDate.value, DayOf(now));
    assert Midnight(now) + 7 * MsPerDay == (DayOf(now) + 7) * MsPerDay;
    DayUpperBound(t.dueDate.value, DayOf(now) + 7);
  }

  /** So the sidebar's due-soon badge never exceeds the size of the dueSoon view. */
  lemma DueSoonBadgeAtMostView(tasks: seq<Task>, now: int)
    ensures Stats(tasks, now).dueSoon <= |FilteredTasks(tasks, "", DueSoon, None, now)|
  {
    forall t: Task | DueSoonByTime(t, now) ensures MatchesFilter(t, DueSoon, now) {
      DueSoonByTimeIsByDay(t, now);
    }
    FilterMonotone(tasks, (t: Task) => DueSoonByTime(t, now), (t: Task) => MatchesFilter(t, DueSoon, now));
  }

  /** The two differ: a task due later on the seventh day is in the view but not in the badge. */
  lemma DueSoonBadgeMissesSeventhDay(t: Task, now: int)
    requires !t.completed && t.dueDate == Some(Midnight(now) + 7 * MsPerDay + 1)
    ensures DueSoonByDay(t, now) && !DueSoonByTime(t, now)
  {
    var due := Midnight(now) + 7 * MsPerDay + 1;
    assert due == (DayOf(now) + 7) * MsPerDay + 1;
    assert DayOf(due) == DayOf(now) + 7;
  }

  /** A task's tag list, empty when it has none. */
  function TagsOf(t: Task): seq<string>
  {
    if t.tags.Some? then t.tags.value else []
  }

  /** Every tag of every task, in the order the counting loop visits them. */
  function AllTags(tasks: seq<Task>): seq<string>
  {
    if |tasks| == 0 then [] else AllTags(tasks[..|tasks| - 1]) + TagsOf(tasks[|tasks| - 1])
  }

  /** The distinct elements of `s` in order of first occurrence (the key order of the counts object). */
  function FirstSeen(s: seq<string>): (r: seq<string>)
    ensures forall x :: x in r <==> x in s
    ensures forall i, j :: 0 <= i < j < |r| ==> r[i] != r[j]
  {
    if |s| == 0 then []
    else
      var d := FirstSeen(s[..|s| - 1]);
      assert forall x :: x in s <==> x in s[..|s| - 1] || x == s[|s| - 1] by {
        assert s == s[..|s| - 1] + [s[|s| - 1]];
      }
      if s[|s| - 1] in d then d else d + [s[|s| - 1]]
  }

  /** `counts` and `order` are the counts object and its key order after visiting `seen`. */
  ghost predicate Counted(counts: map<string, nat>, order: seq<string>, seen: seq<string>)
  {
    && (forall x :: x in counts <==> x in seen)
    && (forall x :: x in counts ==> counts[x] == Occ(seen, x))
    && order == FirstSeen(seen)
  }

  /** `tagCounts[tag] = (tagCounts[tag] || 0) + 1`, recording a newly created key. */
  function Bump(counts: map<string, nat>, order: seq<string>, tag: string): (map<string, nat>, seq<string>)
  {
    if tag in counts then (counts[tag := counts[tag] + 1], order)
    else (counts[tag := 1], order + [tag])
  }

  lemma BumpCounts(counts: map<string, nat>, order: seq<string>, seen: seq<string>, tag: string)
    requires Counted(counts, order, seen)
    ensures Counted(Bump(counts, order, tag).0, Bump(counts, order, tag).1, seen + [tag])
  {
    CountStep(seen, tag);
    var (c, o) := Bump(counts, order, tag);
    forall x | x in c ensures c[x] == Occ(seen + [tag], x) {
      if x == tag {
        if tag in counts {
          assert c[x] == Occ(seen, x) + 1;
        } else {
          OccAbsent(seen, x);
        }
      }
    }
  }

  /**
    The tag-counting loop: for each task, for each of its tags, add one to
    that tag's count, creating it at 1. `order` is the order in which keys
    were first created.
   */
  method TagCounts(tasks: seq<Task>) returns (counts: map<string, nat>, order: seq<string>)
    ensures forall x :: x in counts <==> x in AllTags(tasks)
    ensures forall x :: x in counts ==> counts[x] == Occ(AllTags(tasks), x)
    ensures order == FirstSeen(AllTags(tasks))
  {
    counts := map[];
    order := [];
    var i := 0;
    while i < |tasks|
      invariant 0 <= i <= |tasks|
      invariant Counted(counts, order, AllTags(tasks[..i]))
    {
      counts, order := CountTags(counts, order, AllTags(tasks[..i]), TagsOf(tasks[i]));
      assert tasks[..i + 1][..i] == tasks[..i];
      i := i + 1;
    }
    assert tasks[..i] == tasks;
  }

  /** The inner loop: one task's tags added to the counts. */
  method CountTags(counts0: map<string, nat>, order0: seq<string>, before: seq<string>, tags: seq<string>)
    returns (counts: map<string, nat>, order: seq<string>)
    requires Counted(counts0, order0, before)
    ensures Counted(counts, order, before + tags)
  {
    counts, order := counts0, order0;
    var j := 0;
    assert before + tags[..0] == before;
    while j < |tags|
      invariant 0 <= j <= |tags|
      invariant Counted(counts, order, before + tags[..j])
    {
      BumpCounts(counts, order, before + tags[..j], tags[j]);
      assert before + tags[..j + 1] == before + tags[..j] + [tags[j]];
      counts, order := Bump(counts, order, tags[j]).0, Bump(counts, order, tags[j]).1;
      j := j + 1;
    }
    assert tags[..j] == tags;
  }

  /** How the counted prefix grows by one tag. */
  lemma CountStep(seen: seq<string>, tag: string)
    ensures forall x :: x in seen + [tag] <==> x in seen || x == tag
    ensures forall x :: Occ(seen + [tag], x) == Occ(seen, x) + (if x == tag then 1 else 0)
    ensures FirstSeen(seen + [tag]) == if tag in seen then FirstSeen(seen) else FirstSeen(seen) + [tag]
  {
    OccAppend(seen, tag);
    var s := seen + [tag];
    assert s[..|s| - 1] == seen;
  }

  /** A tag with its count. */
  type TagEntry = (string, int)

  function EntryCount(e: TagEntry): int { e.1 }

  /** `Object.entries(tagCounts)`: each key with its count, in key order. */
  function Entries(order: seq<string>, counts: map<string, nat>): (r: seq<TagEntry>)
    requires forall x :: x in order ==> x in counts
    ensures |r| == |order|
    ensures forall i :: 0 <= i < |order| ==> r[i] == (order[i], counts[order[i]])
  {
    seq(|order|, i requires 0 <= i < |order| => (order[i], counts[order[i]]))
  }

  /** `Object.entries(tagCounts).sort((a, b) => b[1] - a[1]).slice(0, 5)`. */
  function TopTags(order: seq<string>, counts: map<string, nat>): (r: seq<TagEntry>)
    requires forall x :: x in order ==> x in counts
    ensures |r| <= 5 && |r| == Min(5, |order|)
    ensures forall i, j :: 0 <= i < j < |r| ==> r[i].1 >= r[j].1
    ensures forall i :: 0 <= i < |r| ==> r[i].0 in order && r[i].1 == counts[r[i].0]
  {
    var sorted := SortDesc(Entries(order, counts), EntryCount);
    forall i | 0 <= i < |sorted| ensures sorted[i] in Entries(order, counts) {
      assert sorted[i] in multiset(sorted);
    }
    sorted[..Min(5, |sorted|)]
  }

  /**
    No tag left out of the top five outranks one kept: when a counted tag is
    missing from the list, five tags are shown and each has at least its count.
   */
  lemma TopTagsAreTop(order: seq<string>, counts: map<string, nat>, x: string)
    requires forall y :: y in order ==> y in counts
    requires x in order
    requires forall i :: 0 <= i < |TopTags(order, counts)| ==> TopTags(order, counts)[i].0 != x
    ensures |TopTags(order, counts)| == 5
    ensures forall i :: 0 <= i < 5 ==> TopTags(order, counts)[i].1 >= counts[x]
  {
    var sorted := SortDesc(Entries(order, counts), EntryCount);
    var m := SortedPosition(order, counts, x);
    var r := TopTags(order, counts);
    assert r == sorted[..Min(5, |sorted|)];
    assert sorted[m] !in r;
    InPrefix(sorted, |r|, m);
    BelowTheTop(sorted, EntryCount, m);
    forall i | 0 <= i < 5 ensures r[i].1 >= counts[x] {
      assert r[i] == sorted[i];
      assert EntryCount(sorted[i]) >= EntryCount(sorted[m]);
    }
  }

  /** An element before position `k` is in the prefix of length `k`. */
  lemma InPrefix<T>(s: seq<T>, k: nat, m: nat)
    requires k <= |s| && m < |s|
    ensures m < k ==> s[m] in s[..k]
  {
    if m < k {
      assert s[..k][m] == s[m];
    }
  }

  /** A counted tag's entry is somewhere in the sorted entries. */
  lemma SortedPosition(order: seq<string>, counts: map<string, nat>, x: string) returns (m: nat)
    requires forall y :: y in order ==> y in counts
    requires x in order
    ensures var sorted := SortDesc(Entries(order, counts), EntryCount);
      m < |sorted| && sorted[m] == (x, counts[x])
  {
    var entries := Entries(order, counts);
    var sorted := SortDesc(entries, EntryCount);
    var k :| 0 <= k < |order| && order[k] == x;
    assert entries[k] == (x, counts[x]);
    assert (x, counts[x]) in multiset(entries);
    assert (x, counts[x]) in multiset(sorted);
    m :| 0 <= m < |sorted| && sorted[m] == (x, counts[x]);
  }

  /** In a list sorted by descending key, the first five keys are at least any key from position five on. */
  lemma BelowTheTop<T>(s: seq<T>, key: T -> int, m: nat)
    requires NonIncreasing(s, key) && 5 <= m < |s|
    ensures forall i :: 0 <= i < 5 ==> key(s[i]) >= key(s[m])
  {
  }

  /** The tags shown are distinct, since the keys of the counts object are. */
  lemma TopTagsDistinct(order: seq<string>, counts: map<string, nat>)
    requires forall y :: y in order ==> y in counts
    requires forall i, j :: 0 <= i < j < |order| ==> order[i] != order[j]
    ensures forall i, j :: 0 <= i < j < |TopTags(order, counts)| ==> TopTags(order, counts)[i].0 != TopTags(order, counts)[j].0
  {
    var entries := Entries(order, counts);
    var sorted := SortDesc(entries, EntryCount);
    var r := TopTags(order, counts);
    assert forall i, j :: 0 <= i < j < |entries| ==> entries[i] != entries[j];
    forall i, j | 0 <= i < j < |r| ensures r[i].0 != r[j].0 {
      if r[i].0 == r[j].0 {
        assert sorted[i] == sorted[j];
        RepeatTwice(sorted, i, j);
        DistinctOnce(entries, sorted[i]);
        assert false;
      }
    }
  }
}
