# The Work List — a verified model of its task store and views

The Work List is a single-page to-do application. Its logic lives in `app.js`, and this project
models that logic in Dafny:

- **The task store** (`state`: the task list, the task id counter, the class list and the class
  id counter). It covers saving the task dialog for a new or an edited task, with the subtask
  reconciliation by title. It also covers delete, `toggleComplete`, the subtask checkbox,
  "complete all", "clear done", `reorderFromDom`, `onAddClass`, the import merge with id
  renumbering, and the export payload.
  - Every operation is a function on `State` values, with its invariants and laws proved.
  - The class `Store.TaskStore` performs the same operations in place. Its methods, including
    the loops of `reorderFromDom`, the `forEach` of "complete all" and the renumbering loop of
    the import, are proved to produce exactly those functions' results.
- **The view** computed by `render`:
  - the five-stage filter pipeline: search, status, priority chip, class, focus date;
  - `isOverdue`;
  - the remaining and completed counts;
  - the progress percent;
  - the tag list as a `Set` in first-appearance order;
  - the per-class chip counts and the reset of a class selection that names no class.
- **The stored documents**: `loadState` and `loadUI` falling back to a default copy, and the three
  "ensure" migrations, which are proved to only fill gaps and to be idempotent.
- **Dates and the calendar**:
  - civil dates with day numbers and weekdays (Sunday = 0);
  - `addDays`, `startOfWeekISO` and `formatISODate`;
  - `diffFromToday` and the due-label case split;
  - the seven-cell week strip with its per-date task counts;
  - `setFocusDate`, `clearFocusDate` and `shiftCalendarWeek`.

  For four-digit years, comparing `YYYY-MM-DD` keys as strings is proved to be comparing days.
  This is what makes the string comparisons in the focus filter and in `isOverdue` mean "on or
  after" and "before".
- **The JavaScript string primitives** the above relies on: `trim`, `split`/`join`, ASCII
  `toLowerCase`, `includes`, `<` on strings, `String(n)` and `padStart`.

The wall clock is a parameter. The UI's "today" is a `Date`, the filter's `todayStr` is a key
string, the stored focus date and week start are the `Date`s their keys denote, and the `Date.now()` subtask stamps are a function `clock` from an entry's position to an
integer. Saving to storage is not modelled: it only writes the state out.

## Model

| member | source | states |
|---|---|---|
| Persist.ShapeState | app.js:153-161 | `ensureStateShape`: the result always has `classes`, `nextClassId` and every task's `classId`. A missing class list becomes `[]`, a missing counter 1, and a task without `classId` gets `null`. Present values, `nextId`, the task count and every other task field are unchanged |
| Persist.ShapeStateIdempotent | app.js:153-161 | A document that already has every field is left alone, and running the migration twice is running it once |
| Persist.EnsureStateShape | app.js:153-161 | The in-place pass over the tasks plus the two counter fields yields exactly `ShapeState` |
| Persist.CalendarDefaults | app.js:163-171 | `ensureCalendarDefaults`: a present week start leaves the document unchanged. A missing one becomes a Sunday at most six days before the focus date, or before today when there is no focus. No other field changes |
| Persist.UiDefaults | app.js:173-180 | `ensureUIStateDefaults`: a falsy selection becomes `'all'` and a non-string scratchpad becomes `''`. Present values and all other fields are kept |
| Persist.ShapeUiIdempotent | app.js:93-97 | The start-up UI migrations yield a fully shaped document with valid dates, leave a shaped document alone, and a second run changes nothing |
| Store.FromDoc | app.js:93-94 | The store built from a shaped document holds exactly its tasks, counters and classes |
| Store.DefaultValid | app.js:18-23 | The default state, shaped, is the empty store with both counters at 1, and it satisfies the store invariants |
| Store.Create | app.js:443-471 | Saving a new task: a blank title changes nothing. Otherwise the new task is put in front of the old list, `nextId` grows by 1, and classes are untouched |
| Store.CreateNewTask | app.js:443-471 | The created task sits at index 0 with the old tasks after it unchanged. It takes the old `nextId`, is not completed, and has a trimmed non-empty title. Its subtasks are numbered 1..n and not done, one per non-blank line |
| Store.CreateValid | app.js:457-471 | Creating keeps every task id below `nextId` and all ids distinct |
| Store.Edit | app.js:441-494 | Saving an edit: a blank title or an unknown id changes nothing. Otherwise only the first task with the id changes, to the edited task. Ids, counters and classes are kept |
| Store.EditValid | app.js:481-494 | Editing keeps the id and class invariants |
| Store.EditUntouched | app.js:481-494 | Opening a task in the dialog and saving it untouched leaves the store unchanged. This holds for a task the dialog shows faithfully: trimmed text, a real date key or no due date, a priority among the select's options, clean tags, distinct subtask titles and an existing class or none |
| Store.Delete | app.js:502-511 | Delete removes every task with the id and keeps all others, in order and with every copy kept. Counters and classes are unchanged |
| Seqs.FilterMultiset | app.js:506 | `filter` keeps every copy of an element that passes and drops every copy of one that does not |
| Store.DeleteAbsent | app.js:505 | Deleting an id no task has changes nothing |
| Store.CreateThenDelete | app.js:441-511 | Deleting a task just created restores the list; only the counter has moved |
| Store.DeleteValid | app.js:502-511 | Deleting keeps the invariants |
| Store.Toggle | app.js:1033-1036 | `toggleComplete`: exactly the first task with the id flips `completed`, and nothing else changes |
| Store.ToggleTwice | app.js:1033-1036 | Toggling twice restores the store |
| Store.ToggleValid | app.js:1033-1036 | Toggling keeps the invariants |
| Store.SetSubtaskDone | app.js:977-980 | The subtask checkbox sets exactly that subtask's `done` flag. Every other task and subtask is unchanged |
| Store.SubtaskUndo | app.js:977-980 | Setting a box back to its old state restores the store |
| Store.SubtaskValid | app.js:977-980 | The checkbox keeps the invariants |
| Store.CompleteAll | app.js:309-314 | "Complete all" marks every task completed and changes nothing else |
| Store.ClearCompleted | app.js:316-321 | "Clear done" keeps exactly the unfinished tasks, in their order and with every copy kept |
| Store.CompleteThenClear | app.js:309-321 | "Complete all" then "clear done" empties the list, and each of the two is idempotent |
| Store.CompleteAllValid | app.js:309-314 | "Complete all" keeps the invariants |
| Store.ClearCompletedValid | app.js:316-321 | "Clear done" keeps the invariants |
| Store.ReorderTasks | app.js:1051-1060 | `reorderFromDom` changes only the task list, and with distinct card ids it keeps its length |
| Store.ReorderValid | app.js:1051-1060 | With distinct card ids the reordered store keeps distinct, fresh ids |
| Store.AddClass | app.js:672-686 | `onAddClass`: a blank name, or a name equal to an existing one ignoring case, changes nothing. Otherwise the class `{id: nextClassId, name: trimmed}` is appended, `nextClassId` grows by 1, and tasks are untouched |
| Store.AddClassTwice | app.js:672-686 | Adding the same name twice adds it once |
| Store.AddClassValid | app.js:672-686 | Adding a class keeps class ids distinct and below the counter, and names trimmed, non-empty and distinct ignoring case |
| Store.AddClassCaseInsensitive | app.js:678-682 | After "Math" is added, "  math " is refused |
| Store.Incoming | app.js:1132-1136 | A file yields a task list exactly when it has `state.tasks` |
| Store.Renumber | app.js:1140-1142 | The k-th incoming task (from 0) takes id `start + k`, in file order, with every other field kept |
| Store.Import | app.js:1132-1149 | A file without a task list changes nothing. If every element is an object, the incoming tasks, renumbered from `nextId`, come before the existing ones and `nextId` grows by their count. At the first element that is not an object the import fails: the tasks are unchanged, but `nextId` has already moved past that element. Classes are untouched |
| Store.ImportValid | app.js:1140-1143 | The import keeps ids distinct and fresh whatever the file holds |
| Store.ImportStopsAtNonObject | app.js:1140-1149 | A file whose second element is `null` imports nothing but advances the counter by two |
| Store.ExportOf | app.js:1105-1110 | The export payload carries the store and version 1 |
| Store.ReadExport | app.js:1105-1110 | Reading an export back offers the exported task list |
| Store.ExportImportRoundTrip | app.js:1105-1143 | Importing an export into an empty store gives back the exported tasks in order, ids renumbered 1..n, with no classes |
| Store.TaskStore.Load | app.js:93-94 | `loadState()` then `ensureStateShape()`: the store is the shaped stored document, or the default |
| Store.TaskStore.SaveTask | app.js:441-500 | The in-place save produces exactly `Create` for a new task, or `Edit` while editing |
| Store.TaskStore.DeleteTask | app.js:502-511 | The in-place delete produces exactly `Delete` |
| Store.TaskStore.ToggleComplete | app.js:1033-1036 | The in-place toggle produces exactly `Toggle` |
| Store.TaskStore.SetSubtask | app.js:977-980 | The in-place checkbox update produces exactly `SetSubtaskDone` |
| Store.TaskStore.CompleteAllTasks | app.js:309-310 | The in-place `forEach` produces exactly `CompleteAll` |
| Store.TaskStore.ClearCompletedTasks | app.js:316-317 | The in-place filter produces exactly `ClearCompleted` |
| Store.TaskStore.Reorder | app.js:1051-1060 | The two in-place loops produce exactly `ReorderTasks` |
| Store.TaskStore.AddClassNamed | app.js:672-686 | The in-place `some` check and push produce exactly `AddClass` |
| Store.TaskStore.ImportTasks | app.js:1132-1149 | The `state.nextId++` renumbering loop, which stops at an element that is not an object, and the concatenation produce exactly `Import` |
| Store.TakeListed | app.js:1053-1057 | The first loop of `reorderFromDom` takes, for each listed id, the first task with that id. It takes the positions `Picked` names |
| Store.AppendRest | app.js:1058-1059 | The second loop appends every position not taken, in increasing order |
| Store.TakenIsPicked | app.js:1054-1057 | Taking ids one at a time takes the positions of the known ids, in listed order |
| Reorder.Picked | app.js:1054-1057 | One position per listed id that names a task, holding a task with that id |
| Reorder.Unpicked | app.js:1058 | The appended positions are in range and not taken |
| Reorder.UnpickedSpec | app.js:1058 | Every position not taken is appended, in increasing order |
| Reorder.ReorderIsPermutation | app.js:1051-1060 | With distinct ids the new order is a permutation of the old positions: nothing lost or duplicated. The known listed ids come first in listed order, and the rest follow in their previous relative order |
| Reorder.OrderDistinct | app.js:1053-1059 | With distinct ids no position is taken twice |
| Reorder.ReorderNothing | app.js:1058-1060 | With no cards listed the list is unchanged |
| Tasks.Reconcile | app.js:490-494 | Subtasks are rebuilt one per new title, in order. An entry whose title an old subtask has takes the first such subtask's id and done flag. Any other entry is new, stamped by the clock and not done |
| Tasks.Carried | app.js:491-493 | The per-entry step: the first old subtask with the title lends id and done flag, otherwise the entry is a fresh undone subtask |
| Tasks.ReconcileDrops | app.js:490-494 | An old subtask whose title is not in the new list is dropped |
| Tasks.ReconcileSame | app.js:490-494 | Reconciling subtasks with their own distinct titles gives them back |
| Tasks.EditedTask | app.js:481-494 | An edit keeps the id, completion and creation time. Title and description are the trimmed form fields; due date, priority, tags and class are read from the form. The subtasks are the old ones reconciled with the form's subtask lines |
| Tasks.EditUnchanged | app.js:405-424 | A task shown faithfully by the dialog (a real date key or no due date, a priority among the select's options, clean text fields and distinct subtask titles) and saved untouched is unchanged |
| Tasks.EditKeepsTitles | app.js:416-417 | The subtask field of the dialog gives the subtask titles back to the reconciliation |
| Tasks.DuplicateTitlesMerge | app.js:490-494 | With two subtasks titled alike, saving untouched gives the second the first one's id and done flag |
| Tasks.TagsRoundTrip | app.js:416-447 | `tags.join(', ')` split on `,`, trimmed and with blanks dropped gives clean tags back |
| Tasks.TitlesRoundTrip | app.js:417-448 | Subtask titles joined by newlines and parsed back are recovered |
| Tasks.TrimmedNonEmptyIsMapFilter | app.js:447-448 | The piecewise entry parser is `map(trim)` followed by `filter(Boolean)` |
| Tasks.EntriesClean | app.js:447-448 | Parsed entries are non-empty, trimmed and free of the separator |
| Text.TrimIsInfix | app.js:443 | `trim` removes white space only at the two ends, and the result neither starts nor ends with white space |
| Text.TrimBlank | app.js:452 | The trimmed string is empty exactly when the input is all white space |
| Text.TrimIdempotent | app.js:443 | Trimming twice is trimming once |
| Text.TrimStartSpec | app.js:443 | The leading strip yields a suffix with everything dropped being white space |
| Text.TrimEndSpec | app.js:443 | The trailing strip yields a prefix with everything dropped being white space |
| Text.Split | app.js:447-448 | `split` on one character: at least one piece, no piece holds the separator, and joining restores the input |
| Text.SplitJoin | app.js:447-448 | Splitting the join of separator-free pieces recovers them |
| Text.JoinInjective | app.js:416-417 | Two lists of separator-free pieces with the same join are equal |
| Text.JoinWithComma | app.js:416 | `join(', ')` equals a join on `,` of the pieces after the first, each with a leading space |
| Text.IncludesAt | app.js:533-535 | `includes` holds exactly when the substring occurs at some position |
| Text.StrLessTransitive | app.js:562 | String `<` is transitive |
| Text.StrLessTotal | app.js:562 | Two different strings are ordered one way or the other |
| Text.StrLessIrreflexive | app.js:562 | No string is less than itself |
| Text.StrLessConcat | app.js:562 | Comparing concatenations with equal-length prefixes compares prefixes, then suffixes |
| Text.ParseNatToString | app.js:191 | Reading `String(n)` back gives `n` |
| Text.IntToStringInjective | app.js:556 | Different integers have different `String` spellings |
| Text.PadTwo | app.js:197-198 | `String(n).padStart(2, '0')` is the two-digit form of any `n` below 100 |
| Text.DigitsOrder | app.js:195-199 | Fixed-width digit strings compare as strings exactly as their numbers compare |
| Dates.WeekdayAnchors | app.js:204 | `getDay` on known dates: 1970-01-01 was a Thursday and 2026-10-18 a Sunday |
| Dates.DayNumberOrder | app.js:202-213 | Day numbers follow calendar order both ways, so a valid date is determined by its day number |
| Dates.NextDay | app.js:209-213 | The next day is a valid date with day number one more |
| Dates.PrevDay | app.js:205 | The previous day is a valid date with day number one less |
| Dates.AddDays | app.js:209-213 | `addDays(d, n)` is a valid date exactly `n` days later |
| Dates.AddDaysAdd | app.js:868-872 | Adding `m` days and then `n` days is adding `m + n` days |
| Dates.StartOfWeekIsSunday | app.js:202-207 | `startOfWeekISO` is idempotent |
| Dates.StartOfWeek | app.js:202-207 | `startOfWeekISO` yields a valid Sunday at most six days before the date |
| Dates.StartOfWeekOfDay | app.js:826-827 | Every day of a Sunday-started week has the weekday of its offset and that Sunday as its week start |
| Dates.FormatKey | app.js:195-200 | For a four-digit year the key is `YYYY-MM-DD` with zero-padded fields |
| Dates.KeyOrder | app.js:562 | For four-digit years, key `<` is day order, and keys are equal exactly when dates are |
| Dates.KeyLess | app.js:884 | For four-digit years, key `<` is day order |
| Dates.ParseFormatKey | app.js:189-200 | Parsing a formatted key gives the date back |
| Dates.ParseISODate | app.js:189-193 | `parseISODate` on a canonical key: a valid date with a year from 100 on. It agrees with the key's fields, except that a year below 100 is read as 1900 plus that year |
| Dates.ParseISODateCentury | app.js:192 | "0050-03-01" is read as 1950-03-01, while its key fields say year 50 |
| Dates.DaysFromToday | app.js:229-237 | The day offset is 0 exactly on today, 1 exactly on tomorrow, and negative exactly for earlier dates |
| Dates.DueLabelFor | app.js:239-250 | No date gives no label and an unreadable one a bare label. Otherwise the label is "today", "tomorrow" or "overdue" exactly when the read date is today, the next day or earlier, and "due" with a date later than tomorrow |
| Dates.ParseKey | app.js:189-193 | A key that is read back is ten characters long and a valid date with a year below 10000; with a four-digit year it is that date's formatted key |
| Dates.DueLabelCases | app.js:229-250 | The due label is "today" exactly when the due date is today, and "tomorrow" exactly when it is the next day. It is "overdue" exactly when the key sorts before today's key, and "due" with a date exactly when it is later than tomorrow |
| View.Visible | app.js:529-566 | The five staged filters equal one filter by the conjunction of the stages' tests |
| View.VisibleMembers | app.js:529-566 | The listed cards are an order-preserving subsequence of the store, and a task is listed exactly when it passes every stage |
| View.StatusStage | app.js:542-549 | "active" lists only unfinished tasks and "done" only completed ones. "today" lists only tasks due today. "overdue" lists only dated, unfinished tasks due before today |
| View.FocusStage | app.js:559-566 | With only the focus set, a task is listed exactly when it is undated, due on or after the focus key, or not completed |
| View.FocusKeepsDays | app.js:559-566 | For canonical due keys the focus test is "due on or after the focus day, or not completed" |
| View.OverdueDays | app.js:881-885 | An undated task is never overdue. For canonical keys, overdue is exactly "unfinished and due on an earlier day" |
| View.TagSearchFinds | app.js:607-610 | Clicking a tag lists every task carrying it, as far as the search stage goes |
| View.SearchedIsFilter | app.js:531-540 | The search stage is a filter that passes everything when the term is empty |
| View.ByPriorityIsFilter | app.js:551-553 | The priority stage is a filter that passes everything for "all" |
| View.ByClassIsFilter | app.js:555-557 | The class stage is a filter that passes everything for "all" |
| View.ByFocusIsFilter | app.js:559-566 | The focus stage is a filter that passes everything without a focus |
| View.CountsAddUp | app.js:569-572 | Remaining plus completed equals the task count |
| View.Remaining | app.js:569 | The remaining count is at most the task count, and 0 exactly when every task is completed |
| View.CompletedCount | app.js:570 | The completed count is at most the task count, and 0 exactly when no task is completed |
| View.Progress | app.js:783-786 | The percent is 0 for an empty store and always lies in 0..100. It is `completed / total * 100` rounded to the nearest integer, halves up |
| View.ProgressExamples | app.js:786 | Sample percents as `Math.round` gives them: 75, 33, 67, 13, 100 and 0 |
| View.StoreProgress | app.js:783-786 | The progress of a store lies in 0..100, is 0 when empty, and is the rounded completed share |
| View.TagUniverse | app.js:595-597 | The nested `forEach` that fills the tag `Set` yields the tags of all tasks, deduplicated in order of first appearance |
| View.DedupElements | app.js:596-597 | The `Set` holds each value once, and exactly the values that occur |
| View.DedupOrder | app.js:596-597 | The `Set` lists values in order of first appearance |
| View.AllTagsMembers | app.js:597-601 | A tag is listed exactly when some task carries it |
| View.ClassTextIs | app.js:556 | `String(classId)` equals a class's id text exactly for tasks assigned that class, over the modelled `classId` values (absent, `null` or an integer) |
| View.ClassCount | app.js:627 | A class's count is at most the task count, and 0 exactly when no task is assigned that class |
| View.ClassChipCount | app.js:626-627 | A class chip's count equals the number of cards listed when that class is the only filter, for tasks whose `classId` is absent, `null` or an integer |
| View.SettledSelectionValid | app.js:615-621 | After the repair the selection is "all" or names a class. A selection naming a class is kept, and repairing twice is repairing once |
| Calendar.CountByDateCounts | app.js:819-823 | The `reduce` counts, for each key, exactly the tasks due on it, and 0 for keys no task is due on |
| Calendar.WeekCells | app.js:806-848 | Seven consecutive days from the week start, Sunday to Saturday when it is a Sunday, each with its due count. For four-digit years a cell is marked today or focus exactly when its date is today or the focus |
| Ui.StartUpShowsFocus | app.js:163-171 | After start-up the shown week starts on a Sunday and contains the focus date |
| Ui.SetFocusShows | app.js:851-860 | Focusing a date shows its week, with the date in its weekday's cell marked as focus. No other field changes |
| Ui.ClickCellKeepsWeek | app.js:364-372 | Clicking a cell focuses its date and keeps the same week on screen |
| Ui.ClearFocusKeepsWeek | app.js:851-866 | Clearing the focus keeps the shown week, and `setFocusDate` with no date is the same thing |
| Ui.WeeksKeepWeekday | app.js:868-872 | Moving by whole weeks keeps the weekday |
| Ui.ShiftWeekShows | app.js:868-879 | Shifting moves the week start by `7 * delta` days, keeps it a Sunday, and moves a focus date to the new start |
| Ui.ShiftCompose | app.js:868-879 | Two shifts are one shift by the sum |
| Ui.ShiftBackAndForth | app.js:338-341 | The previous-week button undoes the next-week button once a week is shown and any focus is its first day |
| Ui.SelectClassChoice | app.js:691-695 | Choosing a class chip selects it, the empty value selects "all", and nothing else changes |
| Ui.SettleClassValid | app.js:615-621 | After the repair the selection is "all" or an existing class id, and the repair is idempotent |
| Ui.UiState.Load | app.js:95-97 | `loadUI()` and both migrations give the shaped stored document, or the default |
| Ui.UiState.EnsureWeekStart | app.js:807-810 | The lazy default in `renderCalendar` is `CalendarDefaults` |
| Ui.UiState.ClearFocusDate | app.js:862-866 | The in-place clear is `ClearFocus` |
| Ui.UiState.SetFocusDate | app.js:851-860 | The in-place focus is `SetFocus` |
| Ui.UiState.ShiftCalendarWeek | app.js:868-879 | The in-place shift is `ShiftWeek` |
| Ui.UiState.SetSelectedClass | app.js:691-695 | The in-place selection is `SelectClass` |
| Ui.UiState.SettleSelectedClass | app.js:615-621 | The `some` loop and the reset produce exactly `SettleClass` |

## Left out

- sw.js is not part of this model. It is the service worker's cache and fetch plumbing.
- DOM work is not modelled: rendering cards and chips, the modal, drag events, keyboard
  shortcuts, toasts, the theme menu, the notes pad and `populateTaskClassSelect`. A drop is
  modelled by the list of card ids it leaves behind.
- Storage and file I/O are not modelled: `localStorage`, `JSON.parse`/`stringify`, `FileReader`
  and the export download.
  - A stored document is an optional parsed value. A missing document and text that does not
    parse both load the default.
  - Saving is a no-op.
  - A stored state without a `tasks` array or a numeric `nextId` is not modelled.
- Tasks.ClassField: only an absent, `null` or integer `classId` is modelled. Imported tasks
  (app.js:1140-1143) and stored documents keep whatever JSON the file holds, so a task may carry
  another type, such as the string "3". For such a task the class filter, which compares
  `String` texts (app.js:556), lists it under class 3, while the chip count, which uses `===`
  (app.js:627), does not count it. View.ClassTextIs and View.ClassChipCount hold only for the
  modelled values. Imported and stored task fields in general are taken as well-typed: a
  non-boolean `completed`, a non-array `tags` or a non-string `dueDate` is not modelled either.
- View.ClassTextIs: "exactly" is stated over the modelled `classId` values. A drifted string
  `classId` whose text is a class's id text also passes the class filter in the source, and the
  model cannot express it (see Tasks.ClassField).
- View.ClassChipCount: the count equals the listed cards only for the modelled `classId`
  values. With a drifted string `classId` the source's chip count can be smaller than the
  number of cards the class filter lists.
- Notifications, the install prompt and service-worker registration are not modelled: they are
  browser APIs.
- `confirm` dialogs are not modelled: delete operations are modelled as confirmed.
- The wall clock is not modelled.
  - `new Date()` and `Date.now()` are inputs.
  - The `Date.now()` stamps of new subtasks are not claimed unique.
  - The filter's and `isOverdue`'s `todayStr` is a UTC key, while `getTodayISO` uses local time.
    The model takes the key and the date as two separate inputs and does not claim they agree.
- Locale text is not modelled: `toLocaleDateString` labels, week labels, headings and badge
  wording. A due label is modelled as its case and date.
- The due-soon reminder arithmetic in milliseconds is not modelled.
- Dates.DaysFromToday: `diffFromToday` divides a millisecond difference and rounds. The model
  uses the difference of day numbers, which is what that rounding yields for two local midnights.
- `parseISODate` on non-canonical text is not modelled. That covers missing fields (`m || 1`)
  and out-of-range values that `Date` would roll over. Dates.ParseKey reads canonical keys and
  rejects the rest, and View.FocusKeepsDays and View.OverdueDays state day order only for
  canonical keys.
- Dates.ParseISODate: a year below 100 is read as 1900 plus that year, as `new Date(y, m, d)`
  does. Where the day does not exist in that 1900s year (such as "0000-02-29", which `Date` rolls
  over to 1900-03-01) the model gives `None`, since roll-over is not modelled.
- Dates.KeyOrder: only four-digit years are covered. `String(year)` is not zero-padded, so other
  years do not sort by day.
- Text.Lower: only ASCII letters are lower-cased, not full Unicode `toLowerCase`.
- Text.StrLess compares code points where JavaScript compares UTF-16 code units. The two agree
  below U+D800.
- View.Progress: `Math.round` of a floating-point quotient is modelled as exact rounding half up.
  Floating-point error is not modelled.
- `seedIfEmpty` and `nextDateString` are never called at start-up and are left out.
- A class selection that names no class is repaired by `renderClassList`. That runs after
  `render` has already filtered with the old selection, so the repair takes effect one render
  late. The model states the repair itself (View.SettledSelection).
- Store.Import does not validate the fields of imported tasks and does not import classes. The
  source does neither. Of a non-object element it models only that it is not an object; the
  failing assignment is the `TypeError` strict mode (app.js:11) raises, and the toast of the
  `catch` is not modelled.
- Store.ReorderTasks: its own contract states only the length, and only for distinct ids. The
  permutation and order properties are in Reorder.ReorderIsPermutation. With repeated card ids
  the drop takes the same task twice, which is not claimed to be a permutation.
- Tasks.EditUnchanged: the dialog's date input and priority select are not modelled as inputs
  that sanitize what they are given. A due text that is not a date key (such as "soon") would
  read back as "", and a priority that is not an option (such as "urgent") as "", saved as
  "medium". Tasks.FormFor copies both as they are, so the untouched-save lemmas (and
  Store.EditUntouched) are stated only for tasks whose due date is a real key and whose priority
  is one of "low", "medium" and "high". Those options are taken from the priorities the app
  itself writes; the page markup is not part of this model.
- Ui.SetFocus: the focus date and the week start, which the source stores as `YYYY-MM-DD`
  strings, are modelled as the dates they denote. This is exact for keys with four-digit years,
  where the string comparisons and `parseISODate` agree with the dates (Dates.KeyOrder,
  Dates.ParseISODate). The date picker's zero-padded values for years below 1000 (such as
  "0999-05-01", which `formatISODate` would write as "999-05-01") and the 1900s reading of years
  below 100 are not modelled for these two fields.
- Tasks.Reconcile: with duplicate subtask titles, both entries take the first match's id and
  done flag (Tasks.DuplicateTitlesMerge). This is the source's behaviour and is modelled as is.
