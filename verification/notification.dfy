/**
  Inbound notification frames of the real-time client (lib/websocket.ts):
  the JavaScript values a parsed frame can hold, the normalisation of a frame
  into a `Notification`, the newest-first history capped at 50, the
  notification badge tables, and the toast list kept by `useNotificationToast`.
 */
module Notifications {
  import opened Base
  import opened JsText

  /** A JavaScript value read from a parsed frame; objects and arrays are `Compound`. */
  datatype JsValue = Undefined | Null | Bool(b: bool) | Num(n: int) | Str(s: string) | Compound

  /** JavaScript truthiness (NaN and -0 are not represented). */
  predicate Truthy(v: JsValue)
  {
    match v
    case Undefined => false
    case Null => false
    case Bool(b) => b
    case Num(n) => n != 0
    case Str(s) => |s| > 0
    case Compound => true
  }

  /** What `JSON.parse(event.data)` produced: it threw, a non-object value, or an object. */
  datatype Parsed = Unparsable | Scalar(v: JsValue) | Record(fields: map<string, JsValue>)

  /** `data.key`, or None when the read throws (the frame was not JSON, or was `null`). */
  function Property(p: Parsed, key: string): Option<JsValue>
  {
    match p
    case Unparsable => None
    case Scalar(v) => if v == Null || v == Undefined then None else Some(Undefined)
    case Record(fields) => Some(if key in fields then fields[key] else Undefined)
  }

  /** The client's `Notification` record; every field holds whatever the frame held. */
  datatype Notification = Notification(
    kind: JsValue,
    taskId: JsValue,
    taskTitle: JsValue,
    reminderType: JsValue,
    message: JsValue,
    dueDate: JsValue,
    timestamp: JsValue)

  /** How the message handler treats one frame. */
  datatype Outcome = Malformed | Heartbeat | Deliver(n: Notification)

  function FieldOf(p: Parsed, key: string): JsValue
  {
    var v := Property(p, key);
    if v.Some? then v.value else Undefined
  }

  /**
    The body of `ws.onmessage`: a frame that cannot be read is dropped, a
    `{"type": "pong"}` frame is a heartbeat, anything else becomes a
    notification stamped with the receipt time `now` when it has no timestamp.
   */
  function Normalise(p: Parsed, now: string): (r: Outcome)
    ensures r == Malformed <==> Property(p, "type").None?
    ensures r == Heartbeat <==> Property(p, "type") == Some(Str("pong"))
    ensures r.Deliver? ==>
      var kind := FieldOf(p, "type");
      var stamp := FieldOf(p, "timestamp");
      && Truthy(r.n.kind)
      && r.n.kind == (if Truthy(kind) then kind else Str("reminder"))
      && r.n.taskId == FieldOf(p, "task_id")
      && r.n.taskTitle == FieldOf(p, "task_title")
      && r.n.reminderType == FieldOf(p, "reminder_type")
      && r.n.message == FieldOf(p, "message")
      && r.n.dueDate == FieldOf(p, "due_date")
      && r.n.timestamp == (if Truthy(stamp) then stamp else Str(now))
      && (|now| > 0 ==> Truthy(r.n.timestamp))
  {
    var kind := Property(p, "type");
    if kind.None? then Malformed
    else if kind.value == Str("pong") then Heartbeat
    else
      Deliver(Notification(
        if Truthy(kind.value) then kind.value else Str("reminder"),
        FieldOf(p, "task_id"),
        FieldOf(p, "task_title"),
        FieldOf(p, "reminder_type"),
        FieldOf(p, "message"),
        FieldOf(p, "due_date"),
        var stamp := FieldOf(p, "timestamp"); if Truthy(stamp) then stamp else Str(now)))
  }

  /** A `{"type": "pong"}` frame is a heartbeat and yields no notification. */
  lemma PongIsHeartbeat(now: string)
    ensures Normalise(Record(map["type" := Str("pong")]), now) == Heartbeat
  {
  }

  /** A reminder frame without a timestamp: its fields copied, the receipt time filled in. */
  lemma ReminderScenario(now: string)
    ensures
      var frame := Record(map[
        "type" := Str("reminder"), "task_id" := Num(7), "task_title" := Str("Pay rent"),
        "reminder_type" := Str("overdue"), "message" := Str("3 days late")]);
      Normalise(frame, now) == Deliver(Notification(
        Str("reminder"), Num(7), Str("Pay rent"), Str("overdue"), Str("3 days late"), Undefined, Str(now)))
  {
  }

  const HistoryLimit: nat := 50

  /** `[notification, ...prev].slice(0, 50)`. */
  function AddToHistory(history: seq<Notification>, n: Notification): (r: seq<Notification>)
    ensures |r| <= HistoryLimit
    ensures |r| == Min(|history| + 1, HistoryLimit)
    ensures r[0] == n
    ensures r[1..] == history[..Min(|history|, HistoryLimit - 1)]
  {
    Take([n] + history, HistoryLimit)
  }

  /** Records each notification of `ns` in turn. */
  function AddAllToHistory(history: seq<Notification>, ns: seq<Notification>): seq<Notification>
    decreases |ns|
  {
    if |ns| == 0 then history else AddAllToHistory(AddToHistory(history, ns[0]), ns[1..])
  }

  function Reverse<T>(s: seq<T>): (r: seq<T>)
    ensures |r| == |s|
    ensures forall i :: 0 <= i < |s| ==> r[i] == s[|s| - 1 - i]
    decreases |s|
  {
    if |s| == 0 then [] else Reverse(s[1..]) + [s[0]]
  }

  lemma TakeOfTake<T>(x: seq<T>, y: seq<T>, n: nat)
    ensures Take(x + Take(y, n), n) == Take(x + y, n)
  {
  }

  /**
    Recording a burst of notifications leaves the newest first: the history is
    the burst reversed followed by the earlier history, cut to 50 entries.
   */
  lemma {:induction false} AddAllToHistoryNewestFirst(history: seq<Notification>, ns: seq<Notification>)
    requires |history| <= HistoryLimit
    ensures AddAllToHistory(history, ns) == Take(Reverse(ns) + history, HistoryLimit)
    decreases |ns|
  {
    if |ns| > 0 {
      var h1 := AddToHistory(history, ns[0]);
      AddAllToHistoryNewestFirst(h1, ns[1..]);
      assert AddAllToHistory(history, ns) == AddAllToHistory(h1, ns[1..]);
      assert h1 == Take([ns[0]] + history, HistoryLimit);
      assert Reverse(ns) == Reverse(ns[1..]) + [ns[0]];
      TakeOfTake(Reverse(ns[1..]), [ns[0]] + history, HistoryLimit);
      assert Reverse(ns[1..]) + ([ns[0]] + history) == Reverse(ns) + history;
    }
  }

  /** After 75 notifications the history holds exactly the last 50, newest first. */
  lemma SeventyFiveNotifications(ns: seq<Notification>)
    requires |ns| == 75
    ensures |AddAllToHistory([], ns)| == 50
    ensures forall i :: 0 <= i < 50 ==> AddAllToHistory([], ns)[i] == ns[74 - i]
  {
    AddAllToHistoryNewestFirst([], ns);
    assert Reverse(ns) + [] == Reverse(ns);
  }

  /** The reminder types that have an entry of their own in the badge tables. */
  const KnownReminderTypes: set<string> := {"due_soon", "due_now", "overdue", "recurring"}

  const NotificationIcons: map<string, string> := map[
    "due_soon" := "\U{23F0}",
    "due_now" := "\U{1F514}",
    "overdue" := "\U{26A0}\U{FE0F}",
    "recurring" := "\U{1F504}"]

  const FallbackIcon: string := "\U{1F4CC}"

  const NotificationColors: map<string, string> := map[
    "due_soon" := "bg-blue-50 border-blue-200 text-blue-700",
    "due_now" := "bg-orange-50 border-orange-200 text-orange-700",
    "overdue" := "bg-red-50 border-red-200 text-red-700",
    "recurring" := "bg-purple-50 border-purple-200 text-purple-700"]

  const FallbackColor: string := "bg-gray-50 border-gray-200 text-gray-700"

  /**
    `getNotificationIcon`: the table's icon for a known type, the inherited
    `Object.prototype` member for a type that names one, and the pin for
    every other type.
   */
  function NotificationIcon(reminderType: string): (r: Lookup<string>)
    ensures r == Found(FallbackIcon) <==> reminderType !in KnownReminderTypes && reminderType !in ObjectPrototypeKeys
    ensures reminderType in KnownReminderTypes ==> r == Found(NotificationIcons[reminderType])
    ensures r.Inherited? <==> reminderType in ObjectPrototypeKeys
  {
    LookupOr(NotificationIcons, reminderType, FallbackIcon)
  }

  /** `getNotificationColor`: the same lookup in the color table, gray classes as the fallback. */
  function NotificationColor(reminderType: string): (r: Lookup<string>)
    ensures r == Found(FallbackColor) <==> reminderType !in KnownReminderTypes && reminderType !in ObjectPrototypeKeys
    ensures reminderType in KnownReminderTypes ==> r == Found(NotificationColors[reminderType])
    ensures r.Inherited? <==> reminderType in ObjectPrototypeKeys
  {
    LookupOr(NotificationColors, reminderType, FallbackColor)
  }

  /** The four known reminder types have four different icons. */
  lemma NotificationIconsDistinct(a: string, b: string)
    requires a in KnownReminderTypes && b in KnownReminderTypes && a != b
    ensures NotificationIcon(a) != NotificationIcon(b)
  {
  }

  /** One toast of `useNotificationToast` (and of the toast container): an id and its notification. */
  datatype ToastEntry<N> = ToastEntry(id: string, notification: N)

  function KeepsOtherIds<N>(id: string): ToastEntry<N> -> bool
  {
    (e: ToastEntry<N>) => e.id != id
  }

  /** `prev.filter((t) => t.id !== id)`. */
  function RemoveById<N(!new)>(toasts: seq<ToastEntry<N>>, id: string): (r: seq<ToastEntry<N>>)
    ensures forall e :: e in r ==> e.id != id
    ensures forall e :: e in toasts && e.id != id ==> e in r
    ensures IsSubseq(r, toasts)
    ensures forall e :: Occ(r, e) == (if e.id != id then Occ(toasts, e) else 0)
  {
    FilterIsSubseq(toasts, KeepsOtherIds(id));
    FilterOcc(toasts, KeepsOtherIds(id));
    Filter(toasts, KeepsOtherIds(id))
  }

  /** Removing an id a second time leaves the list as the first removal left it. */
  lemma RemoveByIdIdempotent<N(!new)>(toasts: seq<ToastEntry<N>>, id: string)
    ensures RemoveById(RemoveById(toasts, id), id) == RemoveById(toasts, id)
  {
    FilterFilter(toasts, KeepsOtherIds(id), KeepsOtherIds(id), KeepsOtherIds<N>(id));
  }

  /** `useNotificationToast` state: the toast list and the ids whose 5-second removal timer is armed. */
  datatype ToastHook = ToastHook(toasts: seq<ToastEntry<Notification>>, autoRemovals: seq<string>)

  /** `showToast`: appends one toast and arms its 5-second removal. `id` stands for the random id. */
  function ShowToast(h: ToastHook, n: Notification, id: string): (r: ToastHook)
    ensures |r.toasts| == |h.toasts| + 1
    ensures r.toasts[..|h.toasts|] == h.toasts && r.toasts[|h.toasts|] == ToastEntry(id, n)
    ensures r.autoRemovals == h.autoRemovals + [id]
  {
    ToastHook(h.toasts + [ToastEntry(id, n)], h.autoRemovals + [id])
  }

  /** `removeToast(id)`. */
  function RemoveToast(h: ToastHook, id: string): (r: ToastHook)
    ensures forall e :: e in r.toasts <==> e in h.toasts && e.id != id
    ensures r.toasts == RemoveById(h.toasts, id)
    ensures r.autoRemovals == h.autoRemovals
  {
    h.(toasts := RemoveById(h.toasts, id))
  }

  /** The 5-second timer armed for `autoRemovals[i]` fires: the same filter by id. */
  function AutoRemovalFires(h: ToastHook, i: nat): (r: ToastHook)
    requires i < |h.autoRemovals|
    ensures forall e :: e in r.toasts <==> e in h.toasts && e.id != h.autoRemovals[i]
    ensures r.toasts == RemoveById(h.toasts, h.autoRemovals[i])
    ensures r.autoRemovals == RemoveAt(h.autoRemovals, i)
    ensures multiset(r.autoRemovals) + multiset{h.autoRemovals[i]} == multiset(h.autoRemovals)
  {
    RemoveAtInverse(h.autoRemovals, i);
    ToastHook(RemoveById(h.toasts, h.autoRemovals[i]), RemoveAt(h.autoRemovals, i))
  }

  /** A manual removal followed by the automatic one for the same id removes nothing more. */
  lemma ManualThenAutomaticRemoval(h: ToastHook, i: nat)
    requires i < |h.autoRemovals|
    ensures AutoRemovalFires(RemoveToast(h, h.autoRemovals[i]), i).toasts == RemoveToast(h, h.autoRemovals[i]).toasts
  {
    RemoveByIdIdempotent(h.toasts, h.autoRemovals[i]);
  }
}
