# subay core, modelled in Dafny

subay is a React Native day planner. Its home screen shows how much of the
year and of the month has gone by as grids of dots, above a list of tasks.
Tasks live in a local map until the user signs in. Sign-in creates a synced
remote map, copies the local tasks into it (see "## Findings" for why they
are not removed from the local map), and points the UI at it.

This project models the logic behind that screen and proves properties of it:

- `TaskStore` (lib/state/tasks.ts): the task store as a class `Store`. It holds
  the local map, the optional remote map, the active-map pointer, the last
  backend client, the current user id and the logged-error flag. It covers:
  - enabling and disabling sync, with the migration loop written as a method;
  - forcing a sync, adding a task, toggling a task and listing tasks;
  - the one-shot sync error log.
- `CalendarData` (app/index.tsx): the year and month grid data and the
  "n days left" label, plus the delay of the midnight refresh timer.
- `OrganismsCalendar` (components/organisms/calendar.tsx): grid
  row/column/margin arithmetic. Also the view's mode-switch state machine
  and double-tap detector, as a class.
- `UiCalendar` (components/ui/calendar.tsx): the button-driven copy of the
  mode switch and the rule that disables a mode button.
- `CounterLabel` (components/atoms/AnimatedCounterLabel.tsx): the animated
  label's per-character entries and their id counter. Also the
  outgoing-row timer and the slide directions, as a class.
- `TimeFormat` (components/molecules/TaskListItem.tsx): the 12-hour
  creation-time label, with a parser that reads it back.
- `Decimal`: decimal rendering of natural numbers (`${n}`) and its
  inverse. `CalendarTypes`: the shared value types and constants.
  `Wrappers`: `Option`.

What the model takes as inputs instead of computing:

- Calendar arithmetic on `Date` is a parameter. A grid is built from the
  number of days in the period and the number of whole days elapsed.
  `Date.now()` and the clock time of a timestamp are parameters too.
- The values `uuidv4()` draws are parameters. `AddTask` receives the new id.
  The migration receives a map `uuids` from each drawn uuid to the local
  orphan it is drawn for. `FreshUuids` says each orphan gets exactly one
  uuid, and that no uuid is empty or clashes with a local key.
- A backend client is an opaque identity, `ClientId`.

## Model

| member | source | states |
|---|---|---|
| TaskStore.Store.constructor | lib/state/tasks.ts:12-18 | The store starts with an empty local map, no remote map, no client, no user and sync disabled. |
| TaskStore.Store.IsTaskSyncEnabled | lib/state/tasks.ts:138-140 | Sync is enabled exactly when the remote map is the active one. Otherwise the active map is the local one. |
| TaskStore.Store.EnableTaskSync | lib/state/tasks.ts:64-94 | A missing client changes nothing. Otherwise the user id and client are recorded and the remote map becomes active. A first client, or a different one, gets a new remote map holding exactly `Migrated(local)`, and the local map is emptied. The same client again leaves both maps alone. |
| TaskStore.MigrateTasks | lib/state/tasks.ts:80-87 | The forEach loop over the local records builds exactly `Migrated(local)`, whatever order it takes the keys in. |
| TaskStore.PendingStep | lib/state/tasks.ts:80-87 | Migrating one more record extends the partial result by exactly that record, under its id or uuid. |
| TaskStore.MigratedStep | lib/state/tasks.ts:80-87 | The key a record migrates to is not yet taken by any record migrated before it, so no record overwrites another. |
| TaskStore.MigrateRecord | lib/state/tasks.ts:81-86 | One callback writes the record under `task.id`, or under its uuid when it has no id, owned by the user. Nothing else in the remote map changes. |
| TaskStore.UuidsDistinct | lib/state/tasks.ts:81 | Two orphans never share a uuid. |
| TaskStore.MigratedContents | lib/state/tasks.ts:75-90 | Every local record arrives. A record with an id keeps it as its key; an orphan arrives under its uuid with that uuid as id. No other key appears. There are as many remote records as local ones. All are owned by the user, well keyed and listed. |
| TaskStore.MigratedCount | lib/state/tasks.ts:78-87 | Migration neither merges nor drops records: the remote map has as many records as the local one. |
| TaskStore.MigrationIsMigrated | lib/state/tasks.ts:80-87 | Any map meeting the pointwise description of the migration equals `Migrated`, so that description determines the result. |
| TaskStore.MigrationOfEmpty | lib/state/tasks.ts:71-90 | Once the local map has been emptied, a later migration for another client moves nothing. |
| TaskStore.Assign | lib/state/tasks.ts:88 | Legend-State `assign` is a shallow merge. The keys are the union of both maps, the patch's values win, and the other values are kept. |
| TaskStore.AssignEmptyKeepsLocal | lib/state/tasks.ts:88 | `localTasks$.assign({})` leaves the local map as it was. A non-empty map stays non-empty. |
| TaskStore.Store.SyncTasksNow | lib/state/tasks.ts:97-103 | The remote map is touched exactly when sync is enabled, and its contents never change. |
| TaskStore.Store.DisableTaskSync | lib/state/tasks.ts:106-108 | Afterwards the local map is active and sync reads as disabled. Nothing else changes. |
| TaskStore.Store.AddTask | lib/state/tasks.ts:112-122 | The active map gains exactly the new record, `{id, task, is_done: false, owner_id: currentUserId}`. The other map is untouched. The listing grows by one. |
| TaskStore.AddListsOneMore | lib/state/tasks.ts:112-122 | Adding a record under a fresh non-empty id lists exactly one more key. The map stays well keyed. |
| TaskStore.Store.ToggleDone | lib/state/tasks.ts:124-127 | The active map becomes `Toggled(active, id)`. The other map is untouched. |
| TaskStore.ToggleEffect | lib/state/tasks.ts:124-127 | Toggling flips `is_done` of that record and of no other. A missing id gains an id-less `{is_done: true}` record. The set of listed keys never changes. |
| TaskStore.ToggleTwice | lib/state/tasks.ts:124-127 | Toggling an existing task twice restores the map. |
| TaskStore.Store.GetTasksArray | lib/state/tasks.ts:129-136 | The result holds exactly the active map's records that have a non-empty id, each once. |
| TaskStore.Store.OnSyncError | lib/state/tasks.ts:32-43 | Only the first sync error of the store's lifetime is logged. After any error, exactly one has been logged. |
| CalendarData.CompletedDays | app/index.tsx:87 | `min(elapsed + 1, total)`: at most the period's length, and equal to it exactly when today is its last day or later. |
| CalendarData.RemainingDays | app/index.tsx:88 | `max(total - completed, 0)`: completed and remaining add up to the period's length. |
| CalendarData.DayCells | app/index.tsx:91-94 | One cell per day of the period. |
| CalendarData.GridShape | app/index.tsx:86-97 | Cell i carries index i. A cell is completed exactly when it is one of the first `completed` cells, so the completed cells form a prefix. The grid keeps its column count. |
| CalendarData.CompletedCount | app/index.tsx:91-94 | The number of completed cells is the completed-day count, clamped to 0..total. |
| CalendarData.CompletedAndRemaining | app/index.tsx:86-94 | On a day inside the period, elapsed + 1 cells are completed, and completed plus remaining cells cover the period. |
| CalendarData.DaysLeftLabelForm | app/index.tsx:96 | The label is "n day left this period" for exactly one remaining day, and "n days left this period" otherwise. |
| CalendarData.DaysLeftCount | app/index.tsx:117 | The number the label starts with is the remaining-day count. |
| CalendarData.CalendarDataFor | app/index.tsx:82-124 | The record has a year grid of 20 columns and a month grid of 7 columns, each with one cell per day. |
| CalendarData.RefreshTimeout | app/index.tsx:143-144 | The refresh timer waits until its target time (five seconds past the next midnight, line 143), and never less than one second. |
| TimeFormat.PadStart | components/molecules/TaskListItem.tsx:27 | `padStart` keeps the string as its suffix and fills up to the width with the fill character. |
| TimeFormat.DisplayHour | components/molecules/TaskListItem.tsx:26 | `hours % 12 \|\| 12` lies in 1..12 and agrees with the hour modulo 12. |
| TimeFormat.Meridiem | components/molecules/TaskListItem.tsx:25 | The suffix is "PM" exactly from noon on, and "AM" before. |
| TimeFormat.TwoDigitMinutes | components/molecules/TaskListItem.tsx:27 | Minutes always take two digits, and those digits read back as the minutes. |
| TimeFormat.FormatTime | components/molecules/TaskListItem.tsx:19-20 | A missing timestamp, and only a missing one, gives "". |
| TimeFormat.FormatTimeShape | components/molecules/TaskListItem.tsx:19-30 | A label has 7 or 8 characters: the hour, ":", two minute digits, " " and "AM" before noon or "PM" from noon on. |
| TimeFormat.FormatTimeRoundTrip | components/molecules/TaskListItem.tsx:19-30 | The label loses nothing: reading it back gives the 24-hour clock it came from. |
| TimeFormat.MidnightAndNoon | components/molecules/TaskListItem.tsx:25-29 | Midnight reads "12:mm AM" and noon "12:mm PM". |
| Decimal.Show | app/index.tsx:96 | `${n}` is a non-empty digit string without a leading zero, and has one digit exactly below 10. |
| Decimal.ParseShow | app/index.tsx:96 | Reading a rendered number back gives the number. |
| Decimal.LeadingNumberOfShow | app/index.tsx:96 | A rendered number followed by a non-digit is read back from the start of the text. |
| CalendarTypes.OtherMode | components/organisms/calendar.tsx:182 | The mode a toggle asks for always differs from the current one. |
| OrganismsCalendar.TotalRowsIsCeiling | components/organisms/calendar.tsx:76-79 | `ceil(cells / columns)`: the rows hold every cell, the last row is not empty, and there are no rows exactly when there are no cells. |
| OrganismsCalendar.CellPosition | components/organisms/calendar.tsx:86-88 | Every cell gets a column inside the grid and a row below `totalRows`. Row and column recombine to the index. |
| OrganismsCalendar.LastRowStart | components/organisms/calendar.tsx:88-98 | A cell is in the last row exactly when its index reaches that row's first index. |
| OrganismsCalendar.StyleOf | components/organisms/calendar.tsx:97-107 | No right margin exactly in the last column. No bottom margin exactly in the last row. Full opacity and the filled colour exactly for completed days; half opacity and the upcoming colour otherwise. |
| OrganismsCalendar.GridStyles | components/organisms/calendar.tsx:86-113 | One style per cell, in order. |
| OrganismsCalendar.MarginsOfGrid | components/organisms/calendar.tsx:97-98 | In a home-screen grid, the cells with no bottom margin are exactly the last row's, partial or not, and those with no right margin are exactly the last column's. |
| OrganismsCalendar.CalendarView.constructor | components/organisms/calendar.tsx:137-143 | The view starts on the year grid, with no switch running, the label sliding down and no recorded tap. |
| OrganismsCalendar.CalendarView.HandleGridModeChange | components/organisms/calendar.tsx:147-161 | Asking for the current mode, or asking during a switch, changes nothing. Otherwise the new mode shows, the old one is remembered while it fades, and the label slides up exactly when going to the year grid. |
| OrganismsCalendar.CalendarView.ToggleGridMode | components/organisms/calendar.tsx:181-184 | Outside a switch, the view moves to the other mode. |
| OrganismsCalendar.CalendarView.HandleGridDoubleTap | components/organisms/calendar.tsx:186-192 | A double tap during a switch is ignored. Otherwise the view moves to the other mode, and the label slides up exactly when that mode is the year grid. |
| OrganismsCalendar.CalendarView.HandleGridPress | components/organisms/calendar.tsx:194-202 | A press within 300 ms of the recorded one clears the record and acts as a double tap: during a switch the mode, the remembered mode and the label direction stay; otherwise the view moves to the other mode with the label sliding up exactly for the year grid. Any other press becomes the recorded one and changes nothing else. |
| OrganismsCalendar.CalendarView.FinishGridTransition | components/organisms/calendar.tsx:204-207 | Ends the switch and forgets the previous mode. |
| UiCalendar.LookOf | components/ui/calendar.tsx:224-234 | Full opacity and the filled colour exactly for completed days; half opacity and the upcoming colour otherwise. |
| UiCalendar.CalendarView.constructor | components/ui/calendar.tsx:259-262 | The view starts on the year grid with no switch running and the label sliding down. |
| UiCalendar.CalendarView.HandleGridModeChange | components/ui/calendar.tsx:268-282 | It has the same guard and effect as the double-tap view's mode change. |
| UiCalendar.CalendarView.FinishGridTransition | components/ui/calendar.tsx:302-305 | Ends the switch. The mode and the label direction stay. |
| UiCalendar.CalendarView.ModeButtonDisabled | components/ui/calendar.tsx:345-355 | The disabled button is exactly the one of the mode being left. No button is disabled outside a switch, and the shown mode's button never is. |
| CounterLabel.Rendered | components/atoms/AnimatedCounterLabel.tsx:86 | A space is drawn as a no-break space, and every other character as itself. |
| CounterLabel.Entries | components/atoms/AnimatedCounterLabel.tsx:81-89 | One entry per character of the text. |
| CounterLabel.RawsOfEntries | components/atoms/AnimatedCounterLabel.tsx:95 | Joining the raw characters of fresh entries gives the text back. |
| CounterLabel.EntryIdInjective | components/atoms/AnimatedCounterLabel.tsx:84 | An id `${serial}-${index}` determines its serial and its index. |
| CounterLabel.EntriesHaveDistinctIds | components/atoms/AnimatedCounterLabel.tsx:83-84 | The entries of one text have pairwise distinct ids. |
| CounterLabel.DisjointSerialsDistinctIds | components/atoms/AnimatedCounterLabel.tsx:84 | Entries drawn at different counter values never share an id, so an outgoing entry never has the id of an incoming one. |
| CounterLabel.ClearDelay | components/atoms/AnimatedCounterLabel.tsx:109 | The row is cleared 60 ms after its last character's delay and duration. |
| CounterLabel.ClearAfterLastCharacter | components/atoms/AnimatedCounterLabel.tsx:34-41 | Every outgoing character finishes animating before its row is dropped. |
| CounterLabel.IncomingMultiplier | components/atoms/AnimatedCounterLabel.tsx:113 | Incoming characters slide from below for "up" and from above for "down". |
| CounterLabel.OutgoingMultiplier | components/atoms/AnimatedCounterLabel.tsx:114 | Outgoing characters always travel opposite to incoming ones. |
| CounterLabel.AnimatedCounterLabel.constructor | components/atoms/AnimatedCounterLabel.tsx:80-92 | Mounting splits the value into entries with serials from 0, and shows that value. |
| CounterLabel.AnimatedCounterLabel.MakeEntries | components/atoms/AnimatedCounterLabel.tsx:81-89 | Each character takes the next counter value. The counter advances by the text's length. |
| CounterLabel.AnimatedCounterLabel.OnValue | components/atoms/AnimatedCounterLabel.tsx:94-102 | An unchanged value changes nothing. A new value moves the current row out and splits the value with fresh serials. The shown text is always the value, and the two rows never share an id. |
| CounterLabel.AnimatedCounterLabel.ClearOutgoing | components/atoms/AnimatedCounterLabel.tsx:109 | The timer drops the outgoing row. |
| CounterLabel.AnimatedCounterLabel.OutgoingTimer | components/atoms/AnimatedCounterLabel.tsx:104-111 | A timer is set exactly when there is a non-empty outgoing row, with the clear delay for its length. |

## Findings

| source | as written | input that shows it | evidently intended | confidence | as-written member | corrected member |
|---|---|---|---|---|---|---|
| lib/state/tasks.ts:88 | `localTasks$.assign({})` merges an empty object into the local map, which keeps every record | any sign-in with at least one local task: after migration the local map still holds it | the local map is emptied once its records are migrated, so each record is migrated once | high; not executed | TaskStore.AssignEmptyKeepsLocal | TaskStore.Store.EnableTaskSync |

As written, the pre-sign-in tasks show again after `disableTaskSync`. A later
`enableTaskSync` with a different client migrates them a second time, and each
orphan gets a new uuid. `Store.EnableTaskSync` empties the local map, and
`MigrationOfEmpty` shows that a later migration then moves nothing.

## Left out

- Date arithmetic is not modelled: day counts from `new Date(...)`, `Math.round` and `Math.floor` on milliseconds, time zones and DST. The counts and the clock time are inputs.
- CounterLabel.Entries: a Dafny `char` is a Unicode scalar value, while `text.split('')` splits into UTF-16 code units. For a character outside the Basic Multilingual Plane (an emoji) the source makes two entries, each a lone surrogate, and advances the id counter by two; the model makes one entry and advances it by one. The labels the app passes (`${n} day(s) left this year/month`) are ASCII, where the two agree.
- TimeFormat.FormatTime: an ISO string that `Date` cannot parse (a NaN label) is not modelled. A present timestamp is taken as a valid clock time.
- The Legend-State/Supabase sync engine is not modelled: persistence, realtime, retries, `created_at`/`updated_at` and the server's copy. A new remote map starts empty, so `assign` on a record under a fresh key amounts to writing that record.
- TaskStore.Store.EnableTaskSync: the `typeof localTasks === 'object'` guard and the `taskCount > 0` test are not separate branches. An empty local map migrates to an empty remote map, which has the same effect.
- TaskStore.Store.GetTasksArray: the `typeof tasksObj !== 'object'` guard is left out, because the model's maps always exist. The order of the result follows an arbitrary walk of the map rather than JavaScript key order.
- TaskStore.Store.AddTask: requires a fresh, non-empty id. A uuid clash is not modelled.
- `currentUserId` is not reset by `disableTaskSync`, as in the code. A task added afterwards is owned by the last signed-in user.
- `console` output is not modelled. `OnSyncError` keeps a ghost count of logged errors instead.
- Animation timing curves, shared values, layout sizes, colours, gestures and the bottom sheets are not modelled. A timer firing is a method call.
- The AnimatedCounterLabel copy inside components/ui/calendar.tsx (lines 94-166) is the same code as components/atoms/AnimatedCounterLabel.tsx, and is modelled once as `CounterLabel`.
- The grid-transition effects (components/organisms/calendar.tsx:209 onward, components/ui/calendar.tsx:307-330) only decide when `FinishGridTransition` runs. That call is modelled; its timing is not.
