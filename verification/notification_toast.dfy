/**
  One mounted `NotificationToast` (components/notification-toast.tsx) and its
  timers. Timers are deadlines in milliseconds; an event says which timer
  fired. The effect's cleanup clears the enter and auto-exit timers, but the
  300 ms close timers are never tracked, so nothing ever cancels them.
 */
module ToastLifecycle {
  import opened Base
  import opened JsText
  import opened Notifications

  const EnterDelay: int := 10
  const AutoExitDelay: int := 5000
  const ExitAnimation: int := 300

  /**
    `visible`/`exiting` are the two state flags; `enterAt`/`exitAt` the armed
    effect timers; `closeAt` the armed 300 ms close timers; `closeCalls` how
    many times `onClose(id)` has been called; `mounted` whether the
    component is still in the tree.
   */
  datatype Toast = Toast(
    id: string,
    visible: bool,
    exiting: bool,
    enterAt: Option<int>,
    exitAt: Option<int>,
    closeAt: seq<int>,
    closeCalls: nat,
    mounted: bool)

  /** First render plus the mount effect at time `t0`. */
  function Mount(id: string, t0: int): (t: Toast)
    ensures !t.visible && !t.exiting && t.mounted && t.closeAt == [] && t.closeCalls == 0
    ensures t.enterAt == Some(t0 + EnterDelay) && t.exitAt == Some(t0 + AutoExitDelay)
  {
    Toast(id, false, false, Some(t0 + EnterDelay), Some(t0 + AutoExitDelay), [], 0, true)
  }

  /**
    `onClose` is only ever called for a toast that has started exiting, and an
    unmounted toast has no effect timer left.
   */
  predicate Inv(t: Toast)
  {
    && ((t.closeCalls > 0 || |t.closeAt| > 0) ==> t.exiting)
    && (!t.mounted ==> t.enterAt == None && t.exitAt == None)
  }

  datatype ToastEvent =
    | EnterFires
    | ExitFires
    | CloseFires(index: nat)
    | CloseClicked(now: int)
    | EffectRerun(now: int)
    | Unmount

  /**
    One event. The enter timer shows the toast; the auto-exit timer starts the
    exit and arms a close 300 ms later; a close timer calls `onClose`; the
    close button does what the auto-exit does without touching the auto-exit
    timer; a change of `notification.id` or of the `onClose` identity re-runs
    the effect (cleanup, then both timers armed afresh); unmounting runs the
    cleanup only.
   */
  function Step(t: Toast, e: ToastEvent): (r: Toast)
    ensures r.id == t.id
    ensures !t.visible && r.visible ==> e.EnterFires? && t.enterAt.Some?
    ensures t.exiting ==> r.exiting
    ensures t.closeCalls <= r.closeCalls <= t.closeCalls + 1
    ensures r.closeCalls == t.closeCalls + 1 <==> e.CloseFires? && e.index < |t.closeAt|
    ensures |r.closeAt| + r.closeCalls ==
      |t.closeAt| + t.closeCalls + (if (e.ExitFires? && t.exitAt.Some?) || (e.CloseClicked? && t.mounted) then 1 else 0)
    ensures !t.mounted ==> !r.mounted
    ensures e.EnterFires? && t.enterAt.Some? ==> r.visible && r.enterAt == None
    ensures e.ExitFires? && t.exitAt.Some? ==>
      r.exiting && r.exitAt == None && r.closeAt == t.closeAt + [t.exitAt.value + ExitAnimation]
    ensures e.CloseClicked? && t.mounted ==>
      r.exiting && r.exitAt == t.exitAt && r.closeAt == t.closeAt + [e.now + ExitAnimation]
    ensures e.CloseFires? && e.index < |t.closeAt| ==> r.closeAt == RemoveAt(t.closeAt, e.index)
    ensures Inv(t) ==> Inv(r)
  {
    match e
    case EnterFires =>
      if t.enterAt.Some? then t.(visible := true, enterAt := None) else t
    case ExitFires =>
      if t.exitAt.Some? then t.(exiting := true, exitAt := None, closeAt := t.closeAt + [t.exitAt.value + ExitAnimation])
      else t
    case CloseFires(i) =>
      if i < |t.closeAt| then t.(closeAt := RemoveAt(t.closeAt, i), closeCalls := t.closeCalls + 1) else t
    case CloseClicked(now) =>
      if t.mounted then t.(exiting := true, closeAt := t.closeAt + [now + ExitAnimation]) else t
    case EffectRerun(now) =>
      if t.mounted then t.(enterAt := Some(now + EnterDelay), exitAt := Some(now + AutoExitDelay)) else t
    case Unmount =>
      t.(mounted := false, enterAt := None, exitAt := None)
  }

  function Run(t: Toast, events: seq<ToastEvent>): Toast
    decreases |events|
  {
    if |events| == 0 then t else Run(Step(t, events[0]), events[1..])
  }

  lemma {:induction false} RunKeepsInv(t: Toast, events: seq<ToastEvent>)
    requires Inv(t)
    ensures Inv(Run(t, events))
    decreases |events|
  {
    if |events| > 0 {
      RunKeepsInv(Step(t, events[0]), events[1..]);
    }
  }

  /** Once exiting, a toast never comes back, whatever happens afterwards. */
  lemma {:induction false} ExitingIsFinal(t: Toast, events: seq<ToastEvent>)
    requires t.exiting
    ensures Run(t, events).exiting && Run(t, events).id == t.id
    decreases |events|
  {
    if |events| > 0 {
      ExitingIsFinal(Step(t, events[0]), events[1..]);
    }
  }

  /** The events that can arm a close timer: the auto-exit firing and a click on close. */
  function ArmingEvents(events: seq<ToastEvent>): (n: nat)
    ensures n <= |events|
    decreases |events|
  {
    if |events| == 0 then 0
    else (if events[0].ExitFires? || events[0].CloseClicked? then 1 else 0) + ArmingEvents(events[1..])
  }

  /**
    Every `onClose` call is paid for by an armed close timer: over any run
    the calls never exceed the close timers armed so far (those armed before
    plus one per auto-exit or click), and no armed timer disappears without
    a call.
   */
  lemma {:induction false} CloseCallsBounded(t: Toast, events: seq<ToastEvent>)
    ensures Run(t, events).closeCalls + |Run(t, events).closeAt| <= t.closeCalls + |t.closeAt| + ArmingEvents(events)
    ensures Run(t, events).closeCalls + |Run(t, events).closeAt| >= t.closeCalls + |t.closeAt|
    decreases |events|
  {
    if |events| > 0 {
      CloseCallsBounded(Step(t, events[0]), events[1..]);
    }
  }

  /**
    Clicking close before the 5 s timer fires does not cancel it: both close
    timers run and `onClose` is called twice for the same id.
   */
  lemma ClickThenAutoExitClosesTwice(id: string, t0: int, click: int)
    ensures
      var r := Run(Mount(id, t0), [CloseClicked(click), ExitFires, CloseFires(0), CloseFires(0)]);
      r.closeCalls == 2 && r.closeAt == []
  {
    var es := [CloseClicked(click), ExitFires, CloseFires(0), CloseFires(0)];
    var t1 := Step(Mount(id, t0), es[0]);
    var t2 := Step(t1, es[1]);
    var t3 := Step(t2, es[2]);
    var t4 := Step(t3, es[3]);
    assert es[1..] == [ExitFires, CloseFires(0), CloseFires(0)];
    assert es[2..] == es[1..][1..] == [CloseFires(0), CloseFires(0)];
    assert es[3..] == es[2..][1..] == [CloseFires(0)];
    assert es[3..][1..] == [];
    calc {
      Run(Mount(id, t0), es);
      Run(t1, es[1..]);
      Run(t2, es[2..]);
      Run(t3, es[3..]);
      Run(t4, []);
    }
  }

  /** A re-run of the effect (such as a parent passing a new `onClose`) restarts the 5 s countdown. */
  lemma RerunRestartsCountdown(t: Toast, now: int)
    requires t.mounted
    ensures Step(t, EffectRerun(now)).exitAt == Some(now + AutoExitDelay)
    ensures Step(t, EffectRerun(now)).closeAt == t.closeAt
  {
  }

  /** Unmounting leaves the close timers armed: an exit in progress still calls `onClose`. */
  lemma UnmountKeepsCloseTimer(t: Toast)
    requires |t.closeAt| > 0
    ensures Step(Step(t, Unmount), CloseFires(0)).closeCalls == t.closeCalls + 1
  {
  }

  /** Icons of `reminderIcons`. */
  datatype IconKind = CalendarIcon | BellIcon | AlertTriangleIcon | RepeatIcon

  /** The icon and its text color class for each reminder type the component knows. */
  const ReminderIcons: map<string, (IconKind, string)> := map[
    "due_soon" := (CalendarIcon, "text-blue-600"),
    "due_now" := (BellIcon, "text-orange-600"),
    "overdue" := (AlertTriangleIcon, "text-red-600"),
    "recurring" := (RepeatIcon, "text-purple-600")]

  const ReminderColors: map<string, string> := map[
    "due_soon" := "bg-blue-50 border-blue-200",
    "due_now" := "bg-orange-50 border-orange-200",
    "overdue" := "bg-red-50 border-red-200",
    "recurring" := "bg-purple-50 border-purple-200"]

  const FallbackReminderIcon: (IconKind, string) := (BellIcon, "text-gray-600")
  const FallbackReminderColor: string := "bg-gray-50 border-gray-200"

  /** The four reminder types the tables cover. */
  const ToastReminderTypes: set<string> := {"due_soon", "due_now", "overdue", "recurring"}

  /**
    The icon shown for a reminder type: the table entry, the inherited
    `Object.prototype` member for a type that names one, or a gray bell.
   */
  function ReminderIcon(reminderType: string): (r: Lookup<(IconKind, string)>)
    ensures r == Found(FallbackReminderIcon) <==> reminderType !in ToastReminderTypes && reminderType !in ObjectPrototypeKeys
    ensures reminderType in ToastReminderTypes ==> r == Found(ReminderIcons[reminderType])
    ensures r.Inherited? <==> reminderType in ObjectPrototypeKeys
  {
    LookupOr(ReminderIcons, reminderType, FallbackReminderIcon)
  }

  /** The background/border classes for a reminder type, looked up the same way, gray as the fallback. */
  function ReminderColor(reminderType: string): (r: Lookup<string>)
    ensures r == Found(FallbackReminderColor) <==> reminderType !in ToastReminderTypes && reminderType !in ObjectPrototypeKeys
    ensures reminderType in ToastReminderTypes ==> r == Found(ReminderColors[reminderType])
    ensures r.Inherited? <==> reminderType in ObjectPrototypeKeys
  {
    LookupOr(ReminderColors, reminderType, FallbackReminderColor)
  }

  /** The four known types get four different icons. */
  lemma ReminderIconsDistinct(a: string, b: string)
    requires a in ToastReminderTypes && b in ToastReminderTypes && a != b
    ensures ReminderIcon(a).Found? && ReminderIcon(b).Found? && ReminderIcon(a).value.0 != ReminderIcon(b).value.0
  {
  }

  /** The type label: the first underscore becomes a space. */
  function ReminderLabel(reminderType: string): (r: string)
    ensures |r| == |reminderType|
    ensures '_' !in reminderType ==> r == reminderType
  {
    ReplaceFirstSpec(reminderType, '_', ' ');
    ReplaceFirst(reminderType, '_', ' ')
  }

  /** Only the first underscore is rewritten: later ones stay. */
  lemma {:induction false} ReminderLabelFirstOnly(reminderType: string, k: nat)
    requires k < |reminderType| && reminderType[k] == '_'
    ensures ReminderLabel(reminderType)[k] == ' ' <==> forall i :: 0 <= i < k ==> reminderType[i] != '_'
  {
    ReplaceFirstSpec(reminderType, '_', ' ');
    var j := FirstIndex(reminderType, '_');
    assert j <= k;
  }
}
