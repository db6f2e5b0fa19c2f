# Reminder store and scheduling rules — a Dafny model

This project models the core of a personal reminder app, `src/utils/storage.ts`:

- **MemStorage**, the in-memory table of reminders. It keeps a JavaScript `Map` from id to reminder, with the Map's insertion order, and a sequential id counter `currentId`. It creates, lists, completes and deletes reminders, and loads a persisted list into the table.
- **The job registry**, the module-level `jobs` map from a reminder id to its scheduled job. `scheduleReminder` fills it and `cancelScheduledReminder` empties it.
- **Recurrence-rule derivation**, the `switch` in `scheduleReminder`. It turns a frequency and the clock components of a due date into a rule that sets some of the fields minute, hour, dayOfWeek and date.
- **The façade functions** `fetchReminders`, `createReminder`, `markCompleted` and `deleteReminder`. They catch the store's thrown errors and turn them into `{message}` and `{message, ok}` replies.

Modules:

- `Reminders` holds the values: `Reminder`, `Draft`, `Frequency`, `DateParts`, and `Result` for the thrown errors.
- `Recurrence` derives the rule and says which clock moments a rule admits.
- `Jobs` holds the `JobRegistry` class.
- `Storage` holds the `MemStorage` class and the pure functions that specify its load loop.
- `Facade` holds the exported wrappers.
- `Scenarios` holds client methods that run documented scenarios on fresh objects.

The store is a class with fields `keys` (the Map's key order), `reminders` (the Map) and `currentId`, plus a reference to the shared `JobRegistry`. Its invariant `Valid()` says that `keys` lists each key of the table exactly once and that every entry is stored under its own id. Each method states the whole new state in terms of the old one.

Things outside the code are parameters:
- `new Date(dueDate)` with its local-time getters becomes a `Clock` function from the date text to `DateParts`.
- The scheduler's `scheduleJob` becomes `JobRegistry.ScheduleJob`. Its contract allows it to return no job, so every caller is proved for both outcomes.
- The slot of persistent storage becomes a `Stored` value: missing, unparseable, or a parsed list.

Where the documented design of the app and its code disagree, the model follows the code:

- `loadReminders` overwrites `currentId` with one past the largest loaded id, even when that is lower than before. Ids can therefore be handed out again: `Scenarios.IdReuseAfterReload` deletes reminder 2, reloads the saved list, and gets id 2 again. Ids increase strictly only while no reload happens; the `CounterAhead` predicate captures this, and `CreateReminder`, `MarkCompleted` and `DeleteReminder` preserve it.
- `loadReminders` adds to the table without clearing it, and it schedules every loaded reminder, completed ones included (`Scenarios.CompletedRearmedOnReload`).
- Nothing in this code marks a "once" reminder completed after it fires, and no set suppresses repeated notifications. The model has neither.
- The rule for "once" sets no field at all (`Recurrence.OnceRuleIsUnconstrained`). It is not tied to the due date. Under the scheduler's defaults an empty rule (second 0, every other field open) matches once a minute, so a "once" reminder notifies every minute until it is completed or deleted. The scheduler is not part of this model; the model proves only that the rule constrains nothing.

## Model

| member | source | states |
|---|---|---|
| Recurrence.DeriveRule | src/utils/storage.ts:89-112 | the rule sets exactly the fields of the frequency (none for once; minute for hourly; hour and minute for daily; dayOfWeek, hour and minute for weekly; date, hour and minute for monthly), each equal to the due date's own component |
| Recurrence.AdmitsExactly | src/utils/storage.ts:92-112 | the derived rule admits a moment if and only if the moment agrees with the due date on every field of the frequency |
| Recurrence.DueDateAdmitted | src/utils/storage.ts:92-112 | the due date's own clock time is admitted by its rule |
| Recurrence.CoarserAdmitsMore | src/utils/storage.ts:95-111 | a frequency whose fields are a subset of another's admits every moment the other admits |
| Recurrence.OnceRuleIsUnconstrained | src/utils/storage.ts:90-92 | for "once" the rule is the empty RecurrenceRule and constrains no clock field |
| Recurrence.WeeklyMondayAtTen | src/utils/storage.ts:102-106 | a weekly reminder due Monday 10:00 gets the rule day 1, hour 10, minute 0, date unset |
| Jobs.ArmAllFrame | src/utils/storage.ts:41-44 | scheduling a list leaves other ids' jobs untouched, and every entry afterwards is an old entry or the job of a listed reminder that got one |
| Jobs.ArmAllLastWins | src/utils/storage.ts:41-44 | every listed reminder that got a job holds that job afterwards, unless a later listed reminder with the same id also got one |
| Jobs.JobRegistry.constructor | src/utils/storage.ts:87 | the registry starts empty |
| Jobs.JobRegistry.ScheduleJob | src/utils/storage.ts:115-118 | the scheduler either hands back no job or one armed with the given rule for the given reminder |
| Jobs.JobRegistry.ScheduleReminder | src/utils/storage.ts:89-122 | when a job comes back it is recorded under the reminder's id, replacing any earlier entry, with the derived rule; when none comes back the registry is unchanged |
| Jobs.JobRegistry.CancelScheduledReminder | src/utils/storage.ts:124-130 | exactly the id's entry is removed; an id without a job leaves the registry unchanged |
| Storage.InsertKey | src/utils/storage.ts:56 | Map.set order: the keys become the old keys plus the id, the old keys keep their positions, a present id changes nothing, and keys stay distinct |
| Storage.RemoveKey | src/utils/storage.ts:79 | Map.delete order: the keys become the old keys minus the id, an absent id changes nothing, and keys stay distinct |
| Storage.RemoveKeyAt | src/utils/storage.ts:79 | Map.delete order: deleting a key splices it out of the key list, and the keys before and after it keep their order |
| Storage.MaxId | src/utils/storage.ts:45 | Math.max of the loaded ids is one of them and at least every one of them |
| Storage.NextIdAfterLoad | src/utils/storage.ts:45 | the recomputed counter is 1 for an empty list, otherwise one past some loaded id and greater than every loaded id |
| Storage.MergeEntriesKeys | src/utils/storage.ts:41-44 | the load loop clears nothing: afterwards the table's keys are exactly the old keys and the loaded ids |
| Storage.MergeEntriesKeepsOthers | src/utils/storage.ts:41-44 | an old entry whose id no loaded reminder has is unchanged by the load loop |
| Storage.MergeEntriesLastWins | src/utils/storage.ts:41-44 | each loaded id ends up holding the last loaded reminder with that id |
| Storage.MergeOrderContents | src/utils/storage.ts:41-44 | after the load loop the key order lists the old and loaded ids once each, with the old keys first in their old places |
| Storage.ReloadRoundTrip | src/utils/storage.ts:32-45 | loading the saved listing of a consistent table into an empty table rebuilds the same entries in the same order |
| Storage.MemStorage.constructor | src/utils/storage.ts:25-30 | a new store is empty, its counter is 1, and the counter is past every id |
| Storage.MemStorage.CreateReminder | src/utils/storage.ts:49-60 | returns the old counter as the id, advances the counter by one, stores a not-completed copy of the draft's fields under that id with all other entries unchanged, and schedules it; the new entry is new whenever the counter was past every id |
| Storage.MemStorage.GetReminders | src/utils/storage.ts:62-64 | the list holds each stored reminder exactly once, in the table's key order, and nothing else |
| Storage.MemStorage.MarkCompleted | src/utils/storage.ts:66-76 | an unknown id fails with "Reminder not found" and changes neither the table nor the jobs; a known id gets `completed = true` with all other fields and entries kept, and its job is removed |
| Storage.MemStorage.DeleteReminder | src/utils/storage.ts:78-84 | an unknown id fails with "Reminder not found" and changes nothing; a known id loses exactly its entry and its job, and the other keys keep their order |
| Storage.MemStorage.LoadReminders | src/utils/storage.ts:37-47 | no stored value changes nothing; unparseable text fails with nothing changed; a parsed list is merged into the table and scheduled, every loaded id ends up stored, every loaded reminder that got a job holds it (unless a later one with the same id also got one), and the counter becomes one past the largest loaded id (1 for an empty list) |
| Storage.MemStorage.Put | src/utils/storage.ts:56 | Map.set of a reminder under its own id: that entry becomes the reminder, all others and the counter are kept, and the key order follows InsertKey |
| Storage.MemStorage.SetAll | src/utils/storage.ts:41-44 | the forEach sets each reminder into the table and schedules it, in list order, leaving the counter alone |
| Facade.CompleteReplyOf | src/utils/storage.ts:151-158 | success passes the reminder through; any failure becomes `{message: "Reminder not found"}` |
| Facade.DeleteReplyOf | src/utils/storage.ts:160-168 | `ok` is true exactly when the store call succeeded, with the message "Reminder deleted", otherwise "Reminder not found" |
| Facade.FetchReminders | src/utils/storage.ts:132-140 | loads the slot and lists the store's reminders; an unparseable slot yields "Error fetching reminders" and leaves the store and the jobs as they were |
| Facade.CreateReminder | src/utils/storage.ts:142-149 | the store call cannot fail in the model, so the reply is always the created reminder, with the store updated as CreateReminder states |
| Facade.MarkCompleted | src/utils/storage.ts:151-158 | replies with the completed reminder exactly when the id was stored; otherwise replies "Reminder not found" and changes nothing |
| Facade.DeleteReminder | src/utils/storage.ts:160-168 | `ok` is true exactly when the id was stored; afterwards the id is gone from the table and the key order is the old order minus the id; a failed call changes neither the table, nor its order, nor the jobs |
| Scenarios.FirstReminderScenario | src/utils/storage.ts:49-64 | the first reminder of a fresh store gets id 1, is not completed, and is all the store lists |
| Scenarios.DeleteTwiceScenario | src/utils/storage.ts:160-167 | deleting one id twice replies ok the first time and "Reminder not found" with ok false the second time, and the list is then empty |
| Scenarios.CompleteUnknownScenario | src/utils/storage.ts:66-70 | completing an unknown id replies "Reminder not found" and the list is unchanged |
| Scenarios.CompleteTwiceScenario | src/utils/storage.ts:66-76 | completing twice returns the same completed reminder both times |
| Scenarios.WeeklyScenario | src/utils/storage.ts:102-130 | a weekly reminder due Monday 10:00 is armed, if at all, with the rule "Mondays at 10:00", and deleting it leaves no job |
| Scenarios.IdReuseAfterReload | src/utils/storage.ts:45 | after deleting the newest reminder (id 2) and reloading the saved list, the next reminder gets id 2 again |
| Scenarios.CompletedRearmedOnReload | src/utils/storage.ts:41-45 | a completed reminder whose job was cancelled is scheduled again by a reload |
| Scenarios.ReloadScenario | src/utils/storage.ts:32-45 | saving a store's list and loading it into a fresh store rebuilds the same table in the same order, with the counter past every id |

## Left out

- Persistence: `saveReminders` and the read in `loadReminders` call the key-value storage plugin and serialise with JSON. The model takes the slot's content as a `Stored` value and treats the saved list as the `GetReminders` listing. A save that fails or never completes is not modelled.
- The constructor's own fire-and-forget `loadReminders()` call: the model's constructor builds the empty store, and a load is a separate `LoadReminders` or `FetchReminders` call.
- Date parsing and time zones: `new Date(dueDate)` and its local-time getters become the `Clock` parameter. An unparseable date, whose getters return NaN, is not modelled.
- The timer machinery: starting a job, when it fires, and `job.cancel()`. A job is an opaque handle. `JobRegistry.ScheduleJob` may return no job; its body is one admissible scheduler, and callers rely only on its contract.
- Jobs.JobRegistry.ScheduleReminder: the model does not track timers that left the registry. `jobs.set` replaces an entry without cancelling the replaced job, so that timer keeps running untracked.
- The job callback: it logs a line and calls `sendNotification`. Notification delivery is platform plumbing in `src/utils/notify.ts`, which is not part of this model.
- `console` logging of caught errors.
- Concurrency: asynchronous saves, and a job firing while a reminder is being completed or deleted. The model is sequential.
- Facade.CreateReminder: the catch branch ("Invalid reminder data") has no counterpart, because creating a reminder cannot fail in the model.
- JavaScript numbers: ids are unbounded integers. Floating-point ids and `Math.max` of a very long argument list are not modelled.
- A slot holding the empty string is falsy, like a missing value, so it is `Missing` and nothing changes.
- A parsed slot that is not an array makes `forEach` throw before anything changes; the model counts it as `Malformed`.
- An array whose elements are not reminders is not modelled. Such an array can set an `undefined` key and make `currentId` NaN (`[1, 2]`), or set and schedule some elements before throwing part-way (`[reminder, null]`).
