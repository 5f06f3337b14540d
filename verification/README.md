# Todo app client logic in Dafny

This project models the client-side logic of a Next.js todo application with
real-time reminders. Rendering, React state plumbing, timers and network calls
are replaced by plain values and explicit events. What remains is the logic
the components compute, modelled as pure functions over immutable datatypes.

- **Notification client** (`lib/websocket.ts`), module `WebSocketClient`.
  - `useWebSocket` is an event-stepped machine. Its events are socket
    open/message/error/close, a reconnect timer firing, and the host calling
    `connect`, `disconnect`, `reconnect`, `sendMessage` or
    `clearNotifications`.
  - Every socket the client ever created keeps its index, because the code
    never detaches a socket's handlers.
  - Armed reconnect timers are a set of timer ids. `timerRef` remembers only
    the last one.
- **Frame handling, toast hook and lookup tables** (`lib/websocket.ts`), module `Notifications`.
  - Frame normalisation.
  - The 50-entry notification history, newest first.
  - `useNotificationToast`, and the icon and colour tables.
- **Toast component** (`components/notification-toast.tsx`), module `ToastLifecycle`.
  - A per-toast machine driven by the 10 ms, 5000 ms and +300 ms deadlines, a
    close click and unmount.
  - The reminder icon and colour fallbacks, and the reminder label.
  - Removal from the container by id.
- **Tag input** (`components/tag-input.tsx`), module `TagInput`.
  - The ordered validation chain.
  - Add on Enter or comma, removal, Backspace.
  - The paste loop.
- **Task list** (`components/task-list.tsx`), module `TaskList`.
  - Counts and the visible-task filter pipeline.
  - The stable priority and status sorts, and subtask statistics.
  - Id toggles, the add-subtask draft, and "complete all subtasks".
- **Page** (`components/todo-page-client.tsx`), module `TodoPage`.
  - The API-to-task mapper.
  - The search, filter and tag pipeline.
  - The optimistic completion toggle.
- **Sidebar** (`components/Sidebar.tsx`), module `Sidebar`.
  - Totals and the due-soon and priority badges.
  - Tag counting and the top five tags.
- **Filter bar** (`components/task-filters.tsx`), module `TaskFilterBar`.
  - `updateFilter`, the cleared record and `hasActiveFilters`.
  - The sort-order toggle and the due-date select encoding.
- **Task detail panel** (`components/Task-detail.tsx`), module `TaskDetail`.
  - The priority string mapping and the update payload.
  - Adding subtasks.
  - Index-based removal, tag append, and the subtask checkbox and title edits.
- **New-task form** (`components/task-form.tsx`), module `TaskForm`.
  - The schema and the priority codes.
  - The request body and the error message mapping.
- **Chat input** (`components/chat/MessageInput.tsx`), module `MessageInput`.
  - The trim-and-send guard, Enter versus Shift+Enter, and the height cap.

Shared modules:

- `Base`: `Option`, `Filter`, occurrence counts and removal helpers, and integer half-up percentages.
- `JsText`: the ECMAScript white-space set, `trim`, ASCII lower-casing, `includes`, and decimal number strings.
- `StableSort`: a stable descending insertion sort, which stands for the engine's stable `Array.prototype.sort`.
- `TaskTypes`: the `Task` and `Subtask` records and `FilterType`.

Four behaviours of the code are easy to miss; each is proved as a lemma:

- `connect` has no guard: calling it while connected opens a second socket (`WebSocketClient.ConnectWhileConnected`).
- `disconnect` does not stop reconnection. The close it causes still runs the handler, which arms a new timer (`WebSocketClient.DisconnectStillReconnects`).
- `disconnect` cancels only the timer in the ref (`WebSocketClient.DisconnectMissesEarlierTimer`).
- A manual dismiss of a toast does not cancel its automatic exit, so `onClose` runs twice (`ToastLifecycle.ClickThenAutoExitClosesTwice`).

## Model

| member | source | states |
|---|---|---|
| WebSocketClient.SocketUrl | lib/websocket.ts:54-56 | the URL ends in "/ws/" + user id; it starts with the configured URL when one is set, otherwise with wss:// on an https page and ws:// elsewhere, followed by the page host, and its length leaves nothing else in between |
| WebSocketClient.SocketUrlSeparatesUsers | lib/websocket.ts:54-56 | on the same endpoint, two users get the same URL exactly when their ids are equal |
| WebSocketClient.SocketUrlOnSecurePage | lib/websocket.ts:54-56 | on an https page with no configured URL the socket goes to wss://<page host>/ws/<user id> |
| WebSocketClient.Connect | lib/websocket.ts:50-61 | with no user id, or when the constructor throws, nothing changes; otherwise exactly one new connecting socket is appended and made current, and nothing else changes |
| WebSocketClient.HandleOpen | lib/websocket.ts:62-66 | open marks the client connected, resets the counter to 0 and calls onConnect once; timers and history are untouched |
| WebSocketClient.HandleMessage | lib/websocket.ts:68-92 | a frame that is dropped (unreadable or pong) changes nothing; a delivered one is pushed onto the history and passed to onNotification, and nothing else changes |
| WebSocketClient.HandleClose | lib/websocket.ts:94-103 | close marks the client disconnected and calls onDisconnect; below the maximum it increments the counter and arms exactly one new timer, at the maximum it arms none |
| WebSocketClient.HandleError | lib/websocket.ts:105-108 | an error only calls onError |
| WebSocketClient.Disconnect | lib/websocket.ts:114-122 | only the timer in the ref is cancelled; only the current socket starts closing (a connecting or open one becomes closing); the ref is cleared; counter and connected flag are untouched |
| WebSocketClient.Reconnect | lib/websocket.ts:134-138 | the timer in the ref is cancelled and the previous current socket starts closing, the other sockets, history and callbacks are untouched, the counter is reset to 0 and, with a user id, a new connecting socket becomes current (without one, none is current) |
| WebSocketClient.SendMessage | lib/websocket.ts:124-128 | the message is sent on the current socket exactly when that socket is open; otherwise nothing changes |
| WebSocketClient.ClearNotifications | lib/websocket.ts:130-132 | the history becomes empty and nothing else changes |
| WebSocketClient.Step | lib/websocket.ts:50-138 | the socket list only grows; a host reconnect resets the counter to 0; a frame that is dropped leaves the client unchanged |
| WebSocketClient.StepKeepsInv | lib/websocket.ts:64-101 | every event preserves the invariant: the counter stays within 0..max and the history holds at most 50 entries |
| WebSocketClient.StepCounter | lib/websocket.ts:94-103 | the counter grows only on a close below the maximum, and then by one; only such a close arms a timer; at the maximum a close arms nothing and leaves the counter |
| WebSocketClient.StepSockets | lib/websocket.ts:50-66 | sockets are created only by connect, reconnect or an armed timer firing; opening a connecting socket marks the client connected and resets the counter |
| WebSocketClient.StepOutputs | lib/websocket.ts:87-132 | only messages and clear touch the history; only a send on an open current socket sends anything |
| WebSocketClient.RunKeepsInv | lib/websocket.ts:64-101 | the invariant holds after any sequence of events |
| WebSocketClient.ReachableKeepsInv | lib/websocket.ts:140-143 | every state reachable from the mounted hook satisfies the invariant |
| WebSocketClient.MessageEvents | lib/websocket.ts:68 | one message event per frame, on the given socket |
| WebSocketClient.FramesDeliveredInOrder | lib/websocket.ts:68-92 | a run of frames on an open socket calls onNotification once per delivered frame, in arrival order, and the history is the frames pushed newest first |
| WebSocketClient.QuiescentStaysQuiet | lib/websocket.ts:99-102 | once no timer is armed and every socket is closed, no event except a host connect or reconnect creates a socket |
| WebSocketClient.ExhaustedCloseIsFinal | lib/websocket.ts:99-102 | with the counter at the maximum, closing the last live socket leaves the client quiescent |
| WebSocketClient.ReconnectLeavesExhaustion | lib/websocket.ts:134-138 | after exhaustion, reconnect resets the counter and starts a connecting socket |
| WebSocketClient.DisconnectStillReconnects | lib/websocket.ts:114-122 | after disconnect, the close it causes still increments the counter and arms a timer, and that timer creates a new socket |
| WebSocketClient.ConnectWhileConnected | lib/websocket.ts:58-60 | connect while connected opens a second socket and leaves the first open |
| WebSocketClient.StaleSocketCloseCounts | lib/websocket.ts:134-138 | the socket abandoned by reconnect later closes, and its close still counts an attempt and arms a timer |
| WebSocketClient.DisconnectMissesEarlierTimer | lib/websocket.ts:115-117 | a timer armed before the one in the ref survives disconnect, fires, and connects |
| Notifications.Normalise | lib/websocket.ts:70-85 | a frame is dropped exactly when its type cannot be read; it is a heartbeat exactly when the type is "pong"; otherwise the five fields are copied, the type defaults to "reminder" and the timestamp to the receipt time |
| Notifications.PongIsHeartbeat | lib/websocket.ts:72-75 | a pong frame yields no notification |
| Notifications.ReminderScenario | lib/websocket.ts:77-85 | a concrete reminder frame with no timestamp is copied field by field and stamped with the receipt time |
| Notifications.AddToHistory | lib/websocket.ts:87 | the new notification is first, the length is min(n+1, 50), and the rest is the previous history's first min(n, 49) entries in order |
| Notifications.AddAllToHistoryNewestFirst | lib/websocket.ts:87 | after any run of deliveries, the history is the first 50 entries of the deliveries in reverse order followed by the old history |
| Notifications.SeventyFiveNotifications | lib/websocket.ts:87 | 75 deliveries leave the last 50, newest first |
| Notifications.NotificationIcon | lib/websocket.ts:189-197 | known types get their own icon; a type naming an `Object.prototype` member yields that inherited member, and exactly the remaining types get the pin |
| Notifications.NotificationColor | lib/websocket.ts:199-207 | known types get their own classes; a type naming an `Object.prototype` member yields that inherited member, and exactly the remaining types get the gray classes |
| Notifications.NotificationIconsDistinct | lib/websocket.ts:190-195 | the four known types have four different icons |
| Notifications.RemoveById | lib/websocket.ts:174-176 | removal keeps, in order and with their multiplicities, exactly the toasts with another id |
| Notifications.RemoveByIdIdempotent | lib/websocket.ts:174-176 | removing an id twice is the same as removing it once, so a toast's second onClose changes nothing |
| Notifications.ShowToast | lib/websocket.ts:164-172 | exactly one entry is appended after the existing ones, and one auto-removal for its id is scheduled |
| Notifications.RemoveToast | lib/websocket.ts:174-176 | the toasts left are the by-id removal of the list (in order, with multiplicities); scheduled removals are untouched |
| Notifications.AutoRemovalFires | lib/websocket.ts:169-171 | the toasts left are exactly those with another id than the firing timer's, and exactly that timer is removed from the armed ones |
| Notifications.ManualThenAutomaticRemoval | lib/websocket.ts:169-176 | an auto-removal that fires after a manual removal of the same id changes nothing more |
| ToastLifecycle.Mount | components/notification-toast.tsx:41-52 | a new toast is neither visible nor exiting; its enter deadline is 10 ms and its exit deadline 5000 ms after mount |
| ToastLifecycle.Step | components/notification-toast.tsx:44-104 | the enter timer makes the toast visible; the auto-exit timer sets exiting and arms a close 300 ms after its own deadline; a click sets exiting and arms a close 300 ms after the click without touching the auto-exit timer; a due close timer is used up and calls onClose once; exiting is never reset and unmount is permanent |
| ToastLifecycle.RunKeepsInv | components/notification-toast.tsx:44-58 | the toast's invariant holds after any sequence of events |
| ToastLifecycle.ExitingIsFinal | components/notification-toast.tsx:49 | once exiting, a toast stays exiting |
| ToastLifecycle.CloseCallsBounded | components/notification-toast.tsx:44-104 | over any run, onClose calls plus still-armed close timers never exceed those armed before plus one per auto-exit or click event, and an armed close timer disappears only by calling onClose |
| ToastLifecycle.ClickThenAutoExitClosesTwice | components/notification-toast.tsx:100-104 | a click, then the 5000 ms timer, gives two onClose calls for the same id |
| ToastLifecycle.RerunRestartsCountdown | components/notification-toast.tsx:54-58 | re-running the effect restarts the 5000 ms countdown and keeps the armed close timers |
| ToastLifecycle.UnmountKeepsCloseTimer | components/notification-toast.tsx:54-57 | unmount clears only the enter and exit timers; a pending close timer still calls onClose |
| ToastLifecycle.ReminderIcon | components/notification-toast.tsx:26-60 | known types get their own icon; a type naming an `Object.prototype` member yields that inherited member, and exactly the remaining types get the gray Bell |
| ToastLifecycle.ReminderColor | components/notification-toast.tsx:33-61 | known types get their own classes; a type naming an `Object.prototype` member yields that inherited member, and exactly the remaining types get gray |
| ToastLifecycle.ReminderIconsDistinct | components/notification-toast.tsx:26-31 | the four known types have four different icons |
| ToastLifecycle.ReminderLabel | components/notification-toast.tsx:83 | the label has the type's length and equals it when there is no underscore |
| ToastLifecycle.ReminderLabelFirstOnly | components/notification-toast.tsx:83 | an underscore becomes a space exactly when it is the first underscore |
| TagInput.LowerAll | components/tag-input.tsx:53 | each existing tag lower-cased, position by position |
| TagInput.ValidateTag | components/tag-input.tsx:34-64 | no error exactly when the trimmed tag passes all six checks; otherwise the error names a failing check and every earlier check passes |
| TagInput.FirstFailingCheck | components/tag-input.tsx:37-61 | the early-return chain reports the first failing check in the fixed order |
| TagInput.AcceptedTagShape | components/tag-input.tsx:41-61 | an accepted tag matches the pattern, is within the length limit, has room left, has no case-insensitive twin and has no white space |
| TagInput.PatternImpliesPrefix | components/tag-input.tsx:41-59 | a tag the pattern accepts is non-empty and starts with "#" |
| TagInput.AppendKeepsUnique | components/tag-input.tsx:53 | appending a tag with no case-insensitive twin keeps the list case-insensitively unique |
| TagInput.AddTag | components/tag-input.tsx:66-84 | blank input changes nothing and leaves no error; a tag is emitted exactly when it validates, as the old list plus the trimmed tag, never beyond maxTags, and the field is cleared; otherwise the error is shown |
| TagInput.AddTagKeepsUnique | components/tag-input.tsx:49-81 | adding to a case-insensitively unique list keeps it unique |
| TagInput.RemoveTag | components/tag-input.tsx:86-88 | every copy of the tag is removed and every other tag is kept |
| TagInput.AddThenRemove | components/tag-input.tsx:81-88 | removing a tag just added gives the previous list back |
| TagInput.HandleKeyDown | components/tag-input.tsx:90-100 | Enter and comma add; Backspace on an empty field with tags emits exactly `removeTag` of the last tag, so every copy of it goes and nothing else; other keys do nothing |
| TagInput.RunLength | components/tag-input.tsx:108 | the longest prefix without a separator, bounded by a separator or the end |
| TagInput.Tokens | components/tag-input.tsx:107-109 | the non-empty pieces between runs of commas and white space |
| TagInput.TokensKeepText | components/tag-input.tsx:107-109 | splitting loses nothing but separators |
| TagInput.TokensAreSplitPieces | components/tag-input.tsx:107-109 | the tokens are exactly the non-blank pieces of the text cut at every comma and white space, so a token is never cut inside a run of other characters |
| TagInput.KeptTags | components/tag-input.tsx:112-120 | the tags the loop keeps are all accepted, at most the room left and at most one per token |
| TagInput.KeptTagsAreFirstAccepted | components/tag-input.tsx:111-120 | the loop keeps exactly the first tags, up to the room left, among the hashed tokens that validate: none is skipped while room remains |
| TagInput.PastedTags | components/tag-input.tsx:112-120 | at most maxTags minus the current count, and at most one per token |
| TagInput.PastedTagsAccepted | components/tag-input.tsx:115-116 | every pasted tag passes validation against the list as it was before the paste |
| TagInput.Emissions | components/tag-input.tsx:117 | each onChange array is the pre-paste list plus exactly one tag |
| TagInput.PasteLoop | components/tag-input.tsx:111-120 | the loop emits, in order, the pre-paste list plus each accepted tag |
| TagInput.HandlePaste | components/tag-input.tsx:102-121 | the paste emits the pre-paste list plus each accepted token, and makes at most maxTags minus the current count calls |
| TagInput.WithHashNoWhitespace | components/tag-input.tsx:115 | a token with a '#' put in front still has no white space |
| TagInput.PasteAsWritten | components/tag-input.tsx:112-120 | the list the parent keeps: the old list plus at most one tag |
| TagInput.PasteTagsBounded | components/tag-input.tsx:112-120 | the corrected paste never takes the list past maxTags (or past its starting length, when that is already larger) |
| TagInput.PasteTagsShape | components/tag-input.tsx:112-120 | every tag the corrected paste adds matches the tag pattern and fits the length limit |
| TagInput.PasteTagsUnique | components/tag-input.tsx:112-120 | the corrected paste keeps a case-insensitively unique list unique |
| TagInput.PasteTagsAppend | components/tag-input.tsx:112-120 | the corrected paste of two token lists in a row is the paste of their concatenation |
| TagInput.PasteTagsSnoc | components/tag-input.tsx:112-120 | in the corrected paste each further token's tag is appended exactly when it validates against the list built so far, room included, and the list is otherwise unchanged |
| TagInput.PasteIntended | components/tag-input.tsx:102-121 | the corrected paste keeps the old list as a prefix, adds only valid tags, stays within maxTags and keeps uniqueness; completeness is `TagInput.PasteTagsSnoc` |
| TagInput.SingleTokenAgrees | components/tag-input.tsx:112-120 | with a single token, the code as written and the corrected paste agree |
| TagInput.TwoTagsEmitted | components/tag-input.tsx:112-120 | pasting "#a #b" into an empty list accepts both tags |
| TagInput.TwoTagsIntended | components/tag-input.tsx:112-120 | the corrected paste of "#a #b" keeps both tags |
| TagInput.PasteKeepsOnlyLastTag | components/tag-input.tsx:117 | as written, pasting "#a #b" leaves only "#b"; the corrected paste leaves both |
| TaskList.CountsPartition | components/task-list.tsx:85-86 | completed plus pending equals the number of tasks |
| TaskList.CompletionPercentage | components/task-list.tsx:273-275 | the percentage is in 0..100, is 0 with no tasks, is 100 with nothing pending, and is within half a point of the exact ratio |
| TaskList.VisibleTasks | components/task-list.tsx:111-122 | a task is shown exactly when it is listed, not deleted, not hidden as completed and matches the priority filter |
| TaskList.VisibleIsOneFilter | components/task-list.tsx:111-122 | the three filter steps are one order-preserving filter, so the result is a subsequence of the tasks |
| TaskList.LowercaseButtonsMatchNothing | components/task-list.tsx:117-122 | any of the lower-case priority buttons empties the list |
| TaskList.ButtonValue | components/task-list.tsx:420 | each button value is the lower-cased priority name |
| TaskList.VisibleTasksFixed | components/task-list.tsx:111-122 | the corrected pipeline compares priorities case-insensitively |
| TaskList.FixedButtonSelectsPriority | components/task-list.tsx:117-122 | with the correction, a button shows exactly the visible tasks of its priority |
| TaskList.ButtonValueInjective | components/task-list.tsx:420 | different priorities have different buttons and names |
| TaskList.PriorityRank | components/task-list.tsx:132-138 | the rank is 1..3 for Low..High and 0 exactly when there is no priority |
| TaskList.SortByPriority | components/task-list.tsx:131-140 | the result is a permutation with non-increasing rank |
| TaskList.SortByStatus | components/task-list.tsx:141-144 | the result is a permutation with every pending task before every completed one |
| TaskList.RankOfInjective | components/task-list.tsx:132-138 | the rank determines the priority |
| TaskList.PrioritySortStable | components/task-list.tsx:131-140 | tasks of one priority keep their relative order |
| TaskList.StatusSortStable | components/task-list.tsx:141-144 | pending tasks and completed tasks each keep their relative order |
| TaskList.StatusSortSplits | components/task-list.tsx:141-144 | the status sort is the pending tasks followed by the completed ones, each in list order |
| TaskList.SubtaskStats | components/task-list.tsx:94-99 | missing or empty subtasks give (0, 0, 0); otherwise the total and completed counts, with the percentage in 0..100 and within half a point of the ratio |
| TaskList.StatsOpenCount | components/task-list.tsx:94-99 | total minus completed is the number of open subtasks |
| TaskList.Toggle | components/task-list.tsx:206-222 | the id's membership flips and every other id keeps its occurrences |
| TaskList.ToggleTwice | components/task-list.tsx:206-222 | toggling twice restores membership; the list is restored when the id was absent, otherwise every copy is removed and one copy is appended at the end |
| TaskList.HandleAddSubtask | components/task-list.tsx:179-185 | onAddSubtask is called with the trimmed draft exactly when it is non-empty; only that task's draft is cleared |
| TaskList.AddSubtaskNeedsText | components/task-list.tsx:180-181 | a call is made exactly when the draft is not all white space |
| TaskList.FindIndex | components/task-list.tsx:169 | the index of the first task with the id, or the length when there is none |
| TaskList.FindTask | components/task-list.tsx:169 | none exactly when no task has the id; otherwise a listed task with that id |
| TaskList.MarkCompleteCalls | components/task-list.tsx:171-175 | one completing call per given subtask, in order |
| TaskList.CompleteAllSubtasks | components/task-list.tsx:168-177 | the calls are exactly one per open subtask of the first matching task, in list order; no call is made without a task, without subtasks or without a callback |
| TaskList.CompleteAllTargetsOpenSubtasks | components/task-list.tsx:171-175 | every open subtask is targeted, and the calls plus the completed subtasks account for every subtask |
| TodoPage.PriorityOfCode | components/todo-page-client.tsx:20-30 | codes 1, 2 and 3 give Low, Medium and High; 0 and every other code give no priority |
| TodoPage.MapApiTask | components/todo-page-client.tsx:19-33 | the id is the decimal string of the numeric id, the priority is decoded, and every other field is copied |
| TodoPage.MapKeepsIdsDistinct | components/todo-page-client.tsx:29 | two tasks get the same string id exactly when their numeric ids are equal |
| TodoPage.MapAll | components/todo-page-client.tsx:68 | the list is mapped element by element |
| TodoPage.FilteredTasks | components/todo-page-client.tsx:125-171 | a task is kept exactly when it is listed and passes the search, filter and tag tests |
| TodoPage.FilteredIsOneFilter | components/todo-page-client.tsx:125-171 | the three steps are one order-preserving filter, so the result is a subsequence of the tasks |
| TodoPage.NoFilterShowsAll | components/todo-page-client.tsx:125-171 | with no search, the "all" filter and no tag, every task is shown |
| TodoPage.StatusFiltersPartition | components/todo-page-client.tsx:140-143 | the completed and pending views together hold every task once |
| TodoPage.ToggleInList | components/todo-page-client.tsx:213-214 | every task with the started task's id becomes the started task with its completion flipped; all other tasks are unchanged |
| TodoPage.ToggleTwiceRestores | components/todo-page-client.tsx:213-214 | toggling a task and then its updated copy restores the list |
| TodoPage.ToggleKeepsUniqueIds | components/todo-page-client.tsx:213-214 | ids are unchanged, so unique ids stay unique |
| Sidebar.Stats | components/Sidebar.tsx:45-63 | total, completed and pending are consistent, with completed at most the total; the due-soon badge counts exactly the incomplete tasks due between today's midnight and seven days later, and the High/Medium/Low rows exactly the incomplete tasks of that priority, all at most the pending count; progress is in 0..100, 0 with no tasks and 100 with nothing pending |
| Sidebar.StatsAppend | components/Sidebar.tsx:45-63 | one more task adds one to the total and to exactly those counters whose test it passes |
| Sidebar.HighCountIsHighFilter | components/Sidebar.tsx:61-63 | the high-priority badge equals the size of the page's highPriority view |
| Sidebar.PriorityRowsAtMostFilter | components/Sidebar.tsx:230-256 | each priority row counts at most the tasks the page's priority filter shows |
| Sidebar.DueSoonByTimeIsByDay | components/Sidebar.tsx:50-58 | a task the sidebar counts as due soon is also kept by the page's day-based filter |
| Sidebar.DueSoonBadgeAtMostView | components/Sidebar.tsx:50-58 | the due-soon badge is at most the size of the due-soon view |
| Sidebar.DueSoonBadgeMissesSeventhDay | components/Sidebar.tsx:55-57 | a task due one ms after midnight of the seventh day is in the view but not in the badge |
| Sidebar.FirstSeen | components/Sidebar.tsx:66-75 | the distinct tags in order of first occurrence |
| Sidebar.TagCounts | components/Sidebar.tsx:66-73 | the counts have exactly the tags that occur, each with its number of occurrences across all tasks, keyed in first-seen order |
| Sidebar.CountTags | components/Sidebar.tsx:69-71 | the inner loop adds one task's tags to the counts |
| Sidebar.Entries | components/Sidebar.tsx:75 | one (tag, count) entry per key, in key order |
| Sidebar.TopTags | components/Sidebar.tsx:75-77 | at most five entries, as many as there are tags up to five, with non-increasing counts, each with its tag's true count |
| Sidebar.TopTagsAreTop | components/Sidebar.tsx:75-77 | a tag left out of the top five is outnumbered or tied by all five |
| Sidebar.TopTagsDistinct | components/Sidebar.tsx:75-77 | no tag appears twice in the top five |
| StableSort.SortDesc | components/task-list.tsx:124-150 | the sort gives a permutation with non-increasing key |
| StableSort.SortStable | components/task-list.tsx:124-150 | elements with equal keys keep their original relative order |
| TaskFilterBar.UpdateFilter | components/task-filters.tsx:66-71 | the record holds the new value at the key and is unchanged at every other key |
| TaskFilterBar.SameExceptAndHolds | components/task-filters.tsx:66-71 | the key's value and the other keys' values determine the record |
| TaskFilterBar.UpdateIdempotent | components/task-filters.tsx:66-71 | repeating an update changes nothing |
| TaskFilterBar.UpdatesCommute | components/task-filters.tsx:66-71 | updates of different keys commute |
| TaskFilterBar.ActiveIffNotCleared | components/task-filters.tsx:73-92 | filters are active exactly when the record differs from the cleared one outside the sort fields; the cleared record is inactive |
| TaskFilterBar.SortingIsNotFiltering | components/task-filters.tsx:86-92 | changing the sort field or order never changes whether filters are active |
| TaskFilterBar.ToggleOrder | components/task-filters.tsx:177-179 | the toggle always changes the order |
| TaskFilterBar.ToggleOrderInvolution | components/task-filters.tsx:177-179 | toggling twice restores the order |
| TaskFilterBar.DueDateValue | components/task-filters.tsx:232 | the select shows one of "all", "yes", "no" |
| TaskFilterBar.ParseDueDateValue | components/task-filters.tsx:233-237 | "all" reads as null and "yes" as true; every other value reads as false |
| TaskFilterBar.DueDateRoundTrip | components/task-filters.tsx:232-237 | null, true and false survive showing and reading back |
| TaskFilterBar.DueDateValueRoundTrip | components/task-filters.tsx:232-237 | each of the three option values survives reading and showing |
| TaskDetail.GetPriorityString | components/Task-detail.tsx:56-65 | a missing priority gives "none", numbers give one of the four names, and strings pass through unchanged |
| TaskDetail.SubmitPriority | components/Task-detail.tsx:111-121 | an absent or empty priority sends 0; otherwise the lookup is defined only on the four lower-case names |
| TaskDetail.NumericPriorityRoundTrip | components/Task-detail.tsx:56-121 | a code in 0..3 shown and submitted gives back the same code; any other number gives 0 |
| TaskDetail.CapitalisedPriorityDropped | components/Task-detail.tsx:73 | as written, a task with a priority is shown with its capitalised name, and saving sends no priority |
| TaskDetail.GetPriorityStringFixed | components/Task-detail.tsx:56-65 | the corrected mapping lower-cases strings and otherwise agrees with the original |
| TaskDetail.FixedPriorityKept | components/Task-detail.tsx:111-121 | with the correction, saving sends a code that the page reads back as the task's own priority |
| TaskDetail.FormDefaults | components/Task-detail.tsx:67-90 | as written, the form starts from the task's title, its capitalised priority name ("none" without one), its description, tags and subtasks ("" and [] when absent), and the due-date text exactly when there is a due date |
| TaskDetail.FormDefaultsFixed | components/Task-detail.tsx:67-90 | the corrected defaults differ from the original only in showing the priority name in lower case |
| TaskDetail.UpdateData | components/Task-detail.tsx:118-126 | description defaults to "", an empty due date becomes null, absent tags and subtasks become [], the priority is looked up, and completion is the task's |
| TaskDetail.UnchangedSaveAsWritten | components/Task-detail.tsx:67-126 | as written, saving an unedited task sends back its title, description, tags, subtasks and completion and a missing due date as null, but no priority for a task that has one and 0 for a task without |
| TaskDetail.UnchangedSaveKeepsTask | components/Task-detail.tsx:67-126 | with the corrected defaults, saving an unedited task also sends back a priority the page reads back as the task's own |
| TaskDetail.AddSubtask | components/Task-detail.tsx:162-171 | a blank draft changes nothing; otherwise exactly one open subtask with the untrimmed title is appended and the draft is cleared |
| TaskDetail.AddSubtaskCountsOpen | components/Task-detail.tsx:162-171 | an added subtask raises the total by one and leaves the completed count unchanged |
| TaskDetail.TagKeyDown | components/Task-detail.tsx:282-287 | Enter with a non-empty input appends it as typed and clears the input; anything else changes nothing |
| TaskDetail.TagKeptAsTyped | components/Task-detail.tsx:282-287 | the tag is appended untrimmed even when already present |
| TaskDetail.RemoveItemAt | components/Task-detail.tsx:269-273 | exactly the tag (or, with the subtask button, the subtask) at the index is removed, and the others keep their order |
| TaskDetail.RemovedElementRestores | components/Task-detail.tsx:322-326 | putting the removed subtask (or tag) back at its index restores the list |
| TaskDetail.SetSubtaskCompleted | components/Task-detail.tsx:304-308 | only the subtask at the index changes, and only its completion |
| TaskDetail.RenameSubtask | components/Task-detail.tsx:314-318 | only the subtask at the index changes, and only its title |
| TaskDetail.CheckboxMovesCount | components/Task-detail.tsx:304-308 | ticking an open subtask adds one to the completed count, clearing a done one subtracts one, and anything else leaves it unchanged |
| TaskDetail.RenameKeepsCount | components/Task-detail.tsx:314-318 | renaming never changes the completed count |
| TaskForm.ParseLevel | components/task-form.tsx:35 | exactly the four lower-case names are levels, each read back from its name |
| TaskForm.LevelCode | components/task-form.tsx:70-75 | codes lie in 0..3, and 0 means "none" |
| TaskForm.LevelOfCode | components/task-form.tsx:70-75 | exactly the codes 0..3 stand for a level, which encodes back to that code |
| TaskForm.CodeOfName | components/task-form.tsx:70-80 | the lookup is defined exactly on the four names, with codes in 0..3 |
| TaskForm.LevelRoundTrip | components/task-form.tsx:35-80 | a level survives the trip through its name and through its code |
| TaskForm.LevelCodeBijective | components/task-form.tsx:70-75 | the levels map one-to-one onto 0..3 |
| TaskForm.CreatedPriorityReadBack | components/task-form.tsx:70-80 | a created task's code, read back by the page's mapper, is absent for "none" and otherwise the priority whose lower-cased name is the chosen value |
| TaskForm.TaskData | components/task-form.tsx:77-84 | the title is copied and the level encoded; an empty description or due date becomes null; a non-empty tag string becomes a one-element array; the task is not completed |
| TaskForm.TaskDataLosesNothing | components/task-form.tsx:77-84 | with every field defined, the form can be read back from the body |
| TaskForm.TagsNotSplit | components/task-form.tsx:81 | a tag string is sent whole, never split |
| TaskForm.Submit | components/task-form.tsx:30-38 | a body is posted exactly when the title has at least two characters; otherwise the schema message is shown |
| TaskForm.DefaultsRejected | components/task-form.tsx:52-58 | the untouched form is rejected |
| TaskForm.ErrorMessage | components/task-form.tsx:102-112 | an Error naming the fetch failure gives the connectivity message, any other Error its own message, and anything else the generic message |
| TaskForm.OfflineOnlyForFetchFailure | components/task-form.tsx:104-109 | the connectivity message appears only for an Error that names the fetch failure or already carries that message |
| TaskForm.Settle | components/task-form.tsx:95-112 | success resets the form and notifies the parent; failure keeps the values and shows the mapped message |
| MessageInput.HandleSubmit | components/chat/MessageInput.tsx:28-39 | a message is sent exactly when the input is enabled and the draft is not blank; it is the trimmed draft and the draft is cleared; otherwise the draft is kept |
| MessageInput.SentIsTrimmedDraft | components/chat/MessageInput.tsx:30-32 | the sent text is the non-empty middle of the draft, with white space only around it and none at its ends |
| MessageInput.NoDoubleSend | components/chat/MessageInput.tsx:31-33 | a second submit right after a send sends nothing |
| MessageInput.ButtonMatchesSubmit | components/chat/MessageInput.tsx:71 | the button is enabled exactly when pressing it would send |
| MessageInput.HandleKeyDown | components/chat/MessageInput.tsx:41-47 | only Enter without Shift prevents the line break, and then it submits |
| MessageInput.OnlyPlainEnterSends | components/chat/MessageInput.tsx:41-47 | a key sends exactly when it is Enter without Shift and the button is enabled |
| MessageInput.Height | components/chat/MessageInput.tsx:24 | the height is the content height, capped at 200 |
| MessageInput.HeightFollowsContent | components/chat/MessageInput.tsx:24 | content that fits is shown whole, taller content stops at 200, and the height is monotone in the content |
| JsText.TrimSpec | components/chat/MessageInput.tsx:30 | the trimmed text has no white space at either end, and is empty exactly when the input is all white space |
| JsText.TrimIdempotent | components/tag-input.tsx:35 | trimming twice is trimming once |
| JsText.OrNull | components/task-form.tsx:79 | an absent or empty string becomes null; any other is kept |
| JsText.DecimalRoundTrip | components/todo-page-client.tsx:29 | a numeric id's decimal string parses back to the id |
| JsText.ReplaceFirstSpec | components/notification-toast.tsx:83 | only the first occurrence of the character is replaced |
| Base.RoundedPercent | components/task-list.tsx:97 | the percentage is in 0..100 and within half a point of the exact ratio; an empty part gives 0 and a full one gives 100 |

## Left out

- Network I/O is not modelled. That covers `fetch`, `fetchTasks`, the REST calls, `alert`, `confirm` and `console`. Outcomes that matter are parameters, such as the request outcome in `TaskForm.Settle`.
- Real WebSocket objects, `setTimeout`/`clearTimeout` and React effects become explicit events and deadlines. `JSON.parse` is replaced by an already-parsed frame.
- Dates use integer millisecond timestamps and UTC days, with no time zones or daylight saving. `toISOString` formatting is the `dueText` parameter of `TaskDetail.FormDefaults`.
- Random and clock-based ids (`Math.random`, `crypto.randomUUID`) and the receipt time are parameters.
- `Math.round` percentages use exact integer half-up rounding, not floating point.
- Lengths are counted in characters, not UTF-16 units. This matters for the title minimum and `maxLength`.
- Lower-casing is ASCII only. The tag regular expression is a character predicate.
- The title sort (`localeCompare`) is not modelled. Neither is the due-date sort, whose comparator is inconsistent when a date is missing.
- The count maps have no `Object.prototype` key collisions, and integer-like keys are not reordered in `Object.entries`.
- `mapApiTaskToTask` reads `dueDate`, while the API type declares `due_date`. The model takes the field the code reads.
- `TodoPage.MapApiTask` takes the API task's priority as a numeric code and its completion as a boolean `completed` field. The mapper's numeric `priorityMap` and the rest of the page read them that way. types/index.ts:16-33 declares instead `status: "pending" | "completed"` and a string priority ("low", "medium", "high"). Under that declared format the spread would carry no `completed` flag and every priority would map to undefined; the model does not cover it.
- From task-list.tsx, these are not modelled: deletion, bulk selection actions, "complete all", "clear completed", subtask editing and the today count. They are event plumbing around the callbacks already modelled.
- From the page, the chat handler and the task fetch are not modelled; they are network calls.
- The quick-date buttons of the filter bar (components/task-filters.tsx:250-317: Today, Tomorrow, Due Soon, This Week) are not modelled beyond `TaskFilterBar.UpdateFilter`, which they call with a `dueDateRange`. The dates they compute come from the clock through `Date` arithmetic and `toISOString`, which the model leaves out.
- JSX rendering and CSS classes are not modelled, apart from values a handler reads back (the button values and the select value).
- `Sidebar.Stats`: the progress figure is bounded and its end points are exact. The half-up rounding is stated in `Base.RoundedPercent`.
- `TaskList.ToggleTwice`: the list is restored when the id was absent; otherwise every copy is removed and one copy is appended at the end.

## Findings

| source | as written | input that shows it | evidently intended | confidence | as-written member | corrected member |
|---|---|---|---|---|---|---|
| components/task-list.tsx:117-122 | the priority buttons set the lower-case value "high", "medium" or "low", and the filter compares it case-sensitively with the capitalised task priority | any task list with the "high" button pressed: the list shown is empty | the button shows the tasks of its priority | high, not executed | TaskList.LowercaseButtonsMatchNothing | TaskList.FixedButtonSelectsPriority |
| components/Task-detail.tsx:56-65 | a task priority that is a string, such as "High", passes through unchanged, and the save lookup knows only lower-case names | a task with priority "High" saved without edits: the payload's priority is undefined | the task's own priority is sent back | medium, not executed | TaskDetail.CapitalisedPriorityDropped | TaskDetail.FixedPriorityKept |
| components/tag-input.tsx:112-120 | each accepted pasted tag calls onChange with the pre-paste list plus that one tag, so each call overwrites the previous one | pasting "#a #b" into an empty list leaves ["#b"] | every accepted tag is appended | high, not executed | TagInput.PasteKeepsOnlyLastTag | TagInput.PasteIntended |
