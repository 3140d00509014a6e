# Task manager core, modelled in Dafny

This project models the logic of a React/TypeScript personal task manager: the
task list hook (`useTasks`), filtering (`useTaskFilter`), the App handlers that
connect them, the browser-storage helpers for the task→category and task→due-date
maps and the task backup, the category list hook, the JSON/CSV export content,
the statistics panel, the date picker, the keyboard shortcut table, the add-task
form, the category manager and the theme hook.

Each source file is one Dafny module. Shared pieces live in `wrappers.dfy`
(Option/Result), `seqs.dfy` (filter, count, subsequence, splice), `text.dfy`
(JavaScript `trim` white space, ASCII lower-casing, `includes`, decimal text,
`join`/`split`) and `types.dfy` (the records of `src/types`).

How the browser and the server are represented:

- `localStorage` is a `Store` object with a `map<string, Stored>` and a flag
  saying whether writes succeed. `Stored` says what JSON shape a key holds (an
  id→string map, a task list, a category list) or that it holds other text.
  A missing key, or other text, reads as the getter's default; for a missing
  key and for text that `JSON.parse` rejects this is what the source's
  `if (stored)` test and `try/catch` fallback do.
- Remote calls (`taskApi.*`) are function parameters from the request to
  `Success(answer)` or `Failure(thrown value)`. A thrown `Error` carries its
  message; any other thrown value makes the hook use its fallback message.
- Dates are whole day numbers. `new Date(text)` is a parameter (`dayOf` /
  `dateOf`), and so are locale formatting and `toISOString`.
- React state updates are single atomic steps; stateful hooks and components are
  classes whose methods change their fields.

`useTasks` talks to the server only through `taskApi`: it keeps no local copy
of the list, makes no checks of its own on the text it sends, and after
recording the message of a failed add, update or delete it rethrows the failure
to its caller.

## Model

| member | source | states |
|---|---|---|
| UseTasks.ReplaceById | src/hooks/useTasks.ts:40 | Same length; each position holds the server's task where the old id matched and the old task elsewhere |
| UseTasks.ReplaceAbsent | src/hooks/useTasks.ts:40 | Updating an id no task has leaves the list unchanged |
| UseTasks.ReplaceIdempotent | src/hooks/useTasks.ts:40 | Applying the same update twice equals applying it once |
| UseTasks.RemoveById | src/hooks/useTasks.ts:53 | No task with the id remains; every other task is kept; nothing new appears |
| UseTasks.RemoveByIdKeepsOthers | src/hooks/useTasks.ts:53 | The result is an order-preserving subsequence and each other task keeps its multiplicity |
| UseTasks.Reorder | src/hooks/useTasks.ts:65-74 | Same length and multiset; the task from startIndex now sits at endIndex; removing it from both lists gives the same list; equal indices return the list unchanged |
| UseTasks.ReorderAt | src/hooks/useTasks.ts:69-71 | Position by position: the tasks between the two indices shift one place toward the vacated slot, the others stay |
| UseTasks.ReorderInverse | src/hooks/useTasks.ts:69-71 | Reordering (i, j) then (j, i) restores the original list |
| UseTasks.TaskListState.constructor | src/hooks/useTasks.ts:6-8 | No tasks, loading, no error |
| UseTasks.TaskListState.FetchTasks | src/hooks/useTasks.ts:10-21 | Success replaces the list and clears the error; failure keeps the list and records the message or "Failed to fetch tasks"; loading ends false |
| UseTasks.TaskListState.AddTask | src/hooks/useTasks.ts:23-34 | The create result is returned (rethrown on failure); success prepends the new task; failure keeps the list and records the message or "Failed to create task" |
| UseTasks.TaskListState.UpdateTask | src/hooks/useTasks.ts:36-47 | Success replaces the tasks with that id by the server's task; failure keeps the list and records the message or "Failed to update task" |
| UseTasks.TaskListState.DeleteTask | src/hooks/useTasks.ts:49-59 | Success removes the tasks with that id; failure keeps the list and records the message or "Failed to delete task" |
| UseTasks.TaskListState.ToggleTask | src/hooks/useTasks.ts:61-63 | Issues an update carrying only `completed`, with the same outcome as UpdateTask |
| UseTasks.TaskListState.ReorderTasks | src/hooks/useTasks.ts:65-74 | The list becomes Reorder of the old list; loading and error are untouched |
| TaskFilter.FilteredTasks | src/hooks/useTaskFilter.ts:9-28 | Every shown task comes from the input, passes the status predicate and, when the trimmed query is non-blank, contains it after lower-casing |
| TaskFilter.ShowAllIsIdentity | src/hooks/useTaskFilter.ts:10-20 | Status all with a blank query shows the input unchanged |
| TaskFilter.FilteredIsSubsequence | src/hooks/useTaskFilter.ts:14-27 | The result is an order-preserving subsequence of the input |
| TaskFilter.FilteredExactlyPassing | src/hooks/useTaskFilter.ts:13-24 | Each task occurs in the result exactly as often as in the input if it passes both filters, and not at all otherwise |
| TaskFilter.FilteredIdempotent | src/hooks/useTaskFilter.ts:9-28 | Filtering the result again with the same settings returns it unchanged |
| App.FindIndexById | src/App.tsx:59-60 | -1 exactly when no task has the id; otherwise the first position holding it |
| App.OriginalIndexFindsTask | src/App.tsx:54-63 | A shown position maps to an in-range position of the full list holding the same id, and with unique ids to the very same task |
| App.AppState.constructor | src/App.tsx:14-31 | The category map is read from the store; the task list starts empty and loading; the filter shows everything |
| App.AppState.HandleCategoryChange | src/App.tsx:33-44 | The map gains the id when truthy or loses it when falsy; the store is written accordingly; a map in step with the store stays in step |
| App.AppState.HandleAddTask | src/App.tsx:46-48 | Issues a create request with the text, completed false and user 1; success prepends the task and clears the error, failure keeps the list and records the create error; loading is untouched |
| App.AppState.HandleUpdateTask | src/App.tsx:50-52 | Issues an update carrying only the text; success replaces the tasks with that id and clears the error, failure keeps the list and records the update error; loading is untouched |
| App.AppState.HandleReorder | src/App.tsx:54-63 | Reorders the full list between the original positions of the two shown tasks; with unique ids the dragged task lands at the target's original position; loading and error are untouched |
| TaskStorage.Store.SetItem | src/utils/taskStorage.ts:39-42 | A write succeeds exactly when the store accepts writes, and then sets only that key |
| TaskStorage.AssignOrDelete | src/utils/taskStorage.ts:33-38 | A truthy value is set under the id, a falsy one removes it, every other id is unchanged |
| TaskStorage.TaskCategory | src/utils/taskStorage.ts:45-48 | Defined exactly when the id is in the category map |
| TaskStorage.TaskDueDate | src/utils/taskStorage.ts:76-79 | Defined exactly when the id is in the due-date map |
| TaskStorage.UnreadableIdMapIsEmpty | src/utils/taskStorage.ts:19-29 | A missing or unparseable map reads as `{}`, so no task has a category or a due date |
| TaskStorage.NamespacesIndependent | src/utils/taskStorage.ts:7-9 | Writing the category map, the due-date map or the task backup leaves what the other two read unchanged |
| TaskStorage.SetTaskCategory | src/utils/taskStorage.ts:31-43 | On an accepting store the category key holds the edited map; otherwise nothing changes |
| TaskStorage.SetTaskDueDate | src/utils/taskStorage.ts:62-74 | On an accepting store the due-date key holds the edited map; otherwise nothing changes |
| TaskStorage.SetStoredTasks | src/utils/taskStorage.ts:94-100 | On an accepting store the tasks key holds the list; otherwise nothing changes |
| TaskStorage.UnreadableTasksAreEmpty | src/utils/taskStorage.ts:82-92 | A missing or unparseable task backup reads as the empty list |
| TaskStorage.SetThenGetEntry | src/utils/taskStorage.ts:31-48 | After a set, a truthy value is read back and a falsy one reads as absent |
| TaskStorage.SetEntryFrame | src/utils/taskStorage.ts:33-39 | A set leaves every other id's entry and every other store key unchanged |
| TaskStorage.SetEntryIdempotent | src/utils/taskStorage.ts:33-39 | Setting the same entry twice equals setting it once |
| TaskStorage.CategoryRoundTrip | src/utils/taskStorage.ts:31-48 | setTaskCategory then getTaskCategory returns a truthy value, or nothing for a falsy one |
| TaskStorage.DueDateRoundTrip | src/utils/taskStorage.ts:62-79 | setTaskDueDate then getTaskDueDate returns a truthy value, or nothing for a falsy one |
| TaskStorage.StoredTasksRoundTrip | src/utils/taskStorage.ts:82-100 | setStoredTasks then getStoredTasks returns the same list |
| UseCategories.UpdateCategories | src/hooks/useCategories.ts:32-36 | Same length; categories with the id are merged, all others unchanged |
| UseCategories.DeleteCategories | src/hooks/useCategories.ts:38-40 | No category with the id remains and every other one is kept |
| UseCategories.AbsentIdUnchanged | src/hooks/useCategories.ts:34-39 | Updating or deleting an absent id leaves the list unchanged |
| UseCategories.RenameKeepsShape | src/hooks/useCategories.ts:32-36 | A rename keeps every id and colour and the names of the other categories |
| UseCategories.DeleteKeepsOthers | src/hooks/useCategories.ts:38-40 | The result is an order-preserving subsequence; other categories keep their multiplicity |
| UseCategories.MergeLaws | src/hooks/useCategories.ts:34 | An empty update changes nothing, the same update twice is the update once, and a later full update overrides an earlier one |
| UseCategories.UnreadableCategoriesAreDefaults | src/hooks/useCategories.ts:8-18 | A missing or unparseable stored list starts the hook with the five default categories |
| UseCategories.PersistedIsReloaded | src/hooks/useCategories.ts:8-26 | What the persist effect writes is what the next initialisation reads |
| UseCategories.CategoriesState.constructor | src/hooks/useCategories.ts:8-26 | The list is InitialCategories of the store, which then holds that list if it accepts writes |
| UseCategories.CategoriesState.Persist | src/hooks/useCategories.ts:20-26 | On an accepting store the categories key holds the current list; otherwise the failure is swallowed and nothing changes |
| UseCategories.CategoriesState.AddCategory | src/hooks/useCategories.ts:28-30 | Appends the category and persists the new list |
| UseCategories.CategoriesState.UpdateCategory | src/hooks/useCategories.ts:32-36 | The list becomes UpdateCategories of the old one and is persisted |
| UseCategories.CategoriesState.DeleteCategory | src/hooks/useCategories.ts:38-40 | The list becomes DeleteCategories of the old one and is persisted |
| Export.FindCategory | src/utils/export.ts:19 | None exactly when no category has the id; otherwise the first one that has it |
| Export.ResolveCategory | src/utils/export.ts:18-19 | No category exactly when the mapped id is missing or empty or no category has it; otherwise a category of the list with the mapped id, and the first such |
| Export.ExportRecord | src/utils/export.ts:17-28 | The record keeps the task's fields and takes the due date from the map; it carries a category name and colour (both or neither) exactly when the mapped id is truthy and some category has it, and then those of the first such category |
| Export.JsonRecords | src/utils/export.ts:17-28 | One record per task, in task order |
| Export.JsonRecordContents | src/utils/export.ts:17-28 | Each record keeps the task's fields, carries the mapped due date, and carries a category name and colour exactly when the mapped id is truthy and some category has it, taken from the first such category |
| Export.EscapeQuotes | src/utils/export.ts:56 | Doubling quotes adds and removes no other character |
| Export.ParseQuotedEscaped | src/utils/export.ts:56 | Reading an escaped text up to its closing quote recovers the text and the rest |
| Export.QuotedFieldRoundTrip | src/utils/export.ts:56 | A quoted Task field reads back, per section 2 of RFC 4180, as the original text |
| Export.RecordRoundTrip | src/utils/export.ts:66 | A row whose unquoted fields hold no comma or quote reads back as its field texts |
| Export.HeaderLine | src/utils/export.ts:65 | The header holds no line break and splits at commas into exactly the six column names |
| Export.HeaderText | src/utils/export.ts:48 | The header is exactly `ID,Task,Completed,Category,Due Date,User ID` |
| Export.RowFields | src/utils/export.ts:49-61 | Every row has six fields |
| Export.RowLines | src/utils/export.ts:49-62 | One line per task, in task order, each the encoded row of that task |
| Export.CsvContent | src/utils/export.ts:64-67 | The export starts with the header line, which a newline ends exactly when there are tasks; without tasks it is the header alone |
| Export.CsvRowRoundTrip | src/utils/export.ts:49-61 | A row reads back as id, text, Yes exactly when completed (else No), category name, date text and user id |
| Export.RowAvoidsNewline | src/utils/export.ts:54-61 | A row holds no line break when its text, category and date hold none |
| Export.CsvLines | src/utils/export.ts:64-67 | The export splits into one more line than there are tasks: the header, then each task's row in task order |
| Statistics.MakeBucket | src/components/Statistics.tsx:28-34 | Total is the group size, completed and active count done and open tasks, and they add up to the total |
| Statistics.CategoryBuckets | src/components/Statistics.tsx:26-35 | One bucket per category in order, with its name and colour; total, completed and active count the tasks mapped to its id, its done ones and its open ones; completed plus active equals total |
| Statistics.UncategorizedBucket | src/components/Statistics.tsx:38-45 | Named Uncategorized with colour #6B7280; total, completed and active count the tasks whose map entry is missing or empty, the done ones and the open ones |
| Statistics.EmittedBuckets | src/components/Statistics.tsx:85 | Every emitted bucket has a positive total and consistent counts |
| Statistics.EmittedOrder | src/components/Statistics.tsx:39-45 | Emitted: the non-empty category buckets in order, then Uncategorized when non-empty |
| Statistics.EmittedExactlyNonEmpty | src/components/Statistics.tsx:85 | Exactly the buckets with a positive total are emitted, in their original order |
| Statistics.UncategorizedIsDisjoint | src/components/Statistics.tsx:27-38 | No task counts both as uncategorized and in a category with a non-empty id |
| Statistics.CompletionRate | src/components/Statistics.tsx:23 | 0 without tasks; otherwise within half a step of 100·completed/total, and between 0 and 100 |
| Statistics.CompletionRateUnique | src/components/Statistics.tsx:23 | Only one integer is that close, so the rate is the rounded percentage |
| Statistics.ComputeStats | src/components/Statistics.tsx:19-92 | completed plus active equals total; rate 0 without tasks; with and without due date count the two sides of the truthy entry and add up to total |
| Statistics.Overdue | src/components/Statistics.tsx:51-57 | Only an incomplete task with a due date can be overdue |
| Statistics.DueToday | src/components/Statistics.tsx:59-65 | Only an incomplete task with a due date can be due today, and then it is not overdue |
| Statistics.DueThisWeek | src/components/Statistics.tsx:67-75 | Only an incomplete task with a due date can be due this week, and then it is neither overdue nor due today |
| Statistics.DueBucketsDisjoint | src/components/Statistics.tsx:51-75 | The three due buckets are disjoint, so together they count at most the incomplete tasks with a due date |
| DatePicker.RelativeLabel | src/components/DatePicker.tsx:28-35 | The label starts with Overdue exactly for a past day and is then "Overdue by N day" for one day and "Overdue by N days" otherwise; "Due today" exactly for 0, "Due tomorrow" exactly for 1, and exactly "Due in N days" from 2 to 7 |
| DatePicker.FormatDisplayDate | src/components/DatePicker.tsx:19-39 | "No due date" exactly when there is no date (given a calendar text that differs); a valid day up to a week ahead gets its relative label; later or invalid dates get the calendar text |
| DatePicker.IsOverdue | src/components/DatePicker.tsx:60-66 | Overdue exactly when the date is valid and its relative label says Overdue |
| DatePicker.RelativeLabelInjective | src/components/DatePicker.tsx:28-35 | Two different day distances never get the same relative label |
| DatePicker.OverdueIffLabel | src/components/DatePicker.tsx:60-66 | The date is overdue exactly when its label starts with Overdue |
| DatePicker.Picker.constructor | src/components/DatePicker.tsx:10-11 | Closed; a date when the initial value is truthy, none otherwise |
| DatePicker.Picker.Label | src/components/DatePicker.tsx:96 | "No due date" exactly when nothing is selected (given a calendar text that differs); an overdue selection always shows an Overdue label |
| DatePicker.Picker.HandleDateChange | src/components/DatePicker.tsx:41-52 | An empty value clears the date and notifies undefined; a day selects it and notifies its ISO text; the picker closes |
| DatePicker.Picker.HandleClear | src/components/DatePicker.tsx:54-58 | No date, undefined notified, closed |
| DatePicker.Picker.Toggle | src/components/DatePicker.tsx:86 | Flips open/closed and keeps the date |
| DatePicker.Picker.HandleEscape | src/components/DatePicker.tsx:69-80 | Escape closes an open picker; other keys change nothing |
| KeyboardShortcuts.HandleKeyDown | src/hooks/useKeyboardShortcuts.ts:18-49 | At most one callback; focus-search iff Ctrl/Cmd+k or / when not typing; add iff Ctrl/Cmd+Shift+A when not typing; escape iff Escape when not typing; nothing when disabled; preventDefault only for search and add |
| KeyboardShortcuts.TypingOnlySearch | src/hooks/useKeyboardShortcuts.ts:23-48 | While typing only Ctrl/Cmd+k reacts, and it always focuses search and prevents the default |
| KeyboardShortcuts.EscapeKeepsDefault | src/hooks/useKeyboardShortcuts.ts:46-48 | Escape never calls preventDefault |
| AddTaskForm.SubmitDisabled | src/components/AddTaskForm.tsx:40 | An enabled button means a text that is not empty once trimmed |
| AddTaskForm.Form.constructor | src/components/AddTaskForm.tsx:9-10 | Empty input, not submitting |
| AddTaskForm.Form.SetInput | src/components/AddTaskForm.tsx:33 | The input takes the typed text |
| AddTaskForm.Form.HandleSubmit | src/components/AddTaskForm.tsx:12-25 | When the guard fails (blank input or a submit in flight) nothing happens; otherwise onAdd gets the trimmed, non-blank text, the input clears only on success, and submitting ends false |
| AddTaskForm.EnabledButtonSubmits | src/components/AddTaskForm.tsx:14-40 | The button is disabled exactly when the handler's guard fails or the list is loading; an enabled button passes the guard and sends a non-blank, already trimmed text |
| CategoryManager.Manager.constructor | src/components/CategoryManager.tsx:30-34 | Closed, not editing, empty names, the first preset colour |
| CategoryManager.Manager.TogglePanel | src/components/CategoryManager.tsx:87 | Flips the panel and changes nothing else |
| CategoryManager.Manager.SetNewCategoryName | src/components/CategoryManager.tsx:110 | The new name takes the typed text |
| CategoryManager.Manager.SelectColor | src/components/CategoryManager.tsx:121 | The new colour takes the chosen swatch |
| CategoryManager.Manager.SetEditName | src/components/CategoryManager.tsx:162 | The edit name takes the typed text during an edit |
| CategoryManager.Manager.HandleAddCategory | src/components/CategoryManager.tsx:55-67 | A blank name adds nothing; otherwise the category has the given id, the trimmed (non-blank) name and the chosen colour, and the form resets to an empty name and the first preset colour |
| CategoryManager.Manager.HandleUpdateCategory | src/components/CategoryManager.tsx:69-77 | Always leaves edit mode; a blank name sends nothing and keeps the edit name; otherwise sends only the trimmed, non-blank name and clears the edit name |
| CategoryManager.Manager.StartEdit | src/components/CategoryManager.tsx:79-82 | Editing that category's id with its name |
| CategoryManager.Manager.CancelEdit | src/components/CategoryManager.tsx:165-168 | Leaves edit mode and clears the edit name |
| CategoryManager.Manager.HandleEscape | src/components/CategoryManager.tsx:36-53 | Escape cancels an edit in preference to closing; it closes the panel only when not editing |
| UseTheme.Toggled | src/hooks/useTheme.ts:38-40 | The toggled theme differs from the old one |
| UseTheme.ToggleTwice | src/hooks/useTheme.ts:38-40 | Toggling twice restores the theme |
| UseTheme.StoredTheme | src/hooks/useTheme.ts:10-13 | A stored value counts exactly when it is "light" or "dark" |
| UseTheme.InvalidStoredThemeFollowsSystem | src/hooks/useTheme.ts:10-21 | With stored text other than "light" or "dark", or none, the initial theme is dark exactly when the system prefers dark |
| UseTheme.PersistedIsReloaded | src/hooks/useTheme.ts:8-36 | The persisted theme is the one the next start picks, whatever the system prefers |
| UseTheme.ThemeState.constructor | src/hooks/useTheme.ts:8-36 | Starts with InitialTheme, persists it, and the dark class matches the theme |
| UseTheme.ThemeState.ApplyTheme | src/hooks/useTheme.ts:24-36 | Persists the theme and leaves the dark class present exactly for dark |
| UseTheme.ThemeState.ToggleTheme | src/hooks/useTheme.ts:38-40 | The theme flips, is persisted, and the dark class, which matched the old theme, flips with it |

## Left out

- `src/services/api.ts` (the HTTP client) is not part of this model; each call's outcome is an input.
- JSON text and `JSON.parse`/`JSON.stringify`: a store value is a typed stand-in for the JSON of one shape. The model reads any value of another shape as the getter's default; the source does so only for a missing key or unparseable text, and returns well-formed JSON of another shape unchecked (for a stored `null`, `getTaskCategory` throws and `setTaskCategory` swallows its own error and writes nothing). Reads in the model never fail.
- Downloads (`Blob`, object URLs, the anchor click) and the file names in `src/utils/export.ts`.
- Window listener registration and removal, DOM focus, and JSX rendering other than the button conditions modelled above.
- `Date` arithmetic, time zones and daylight-saving days, `Math.ceil` of millisecond differences, `toLocaleDateString` and `toISOString`: dates are day numbers, and text produced from dates is a parameter.
- Statistics.CompletionRate: computed exactly with halves rounded up, not in binary floating point as `Math.round((completed / total) * 100)` is.
- Unicode case folding: `toLowerCase` is modelled on ASCII letters only.
- Asynchronous interleaving of React state updates: each functional update is one step.
- `Date.now()` category ids are inputs.
- UseTasks.Reorder: requires both indices in range; JavaScript `splice` with out-of-range indices is not modelled.
- App.AppState.HandleReorder: requires the shown positions in range, as the drag-and-drop list supplies them.
- Export.CsvRowRoundTrip: the category and date columns are written unquoted, so the round trip holds only when they contain no comma and no quote.
- Export.CsvLines: holds only when no task text, category name or date text contains a line break, since those are written without quoting.
