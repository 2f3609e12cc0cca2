# To-do list: task store, add form, paged tables and task dialog

A Dafny model of the logic inside a small React to-do list application.

- **App** owns the list of tasks. Adding appends a task. Toggling flips `completed` at one list position.
- **Todo** is the add form and a paged table. It builds a draft task from the form with defaults, then clears the form. It keeps the page number and the page size, and it hands a row's position to App when a row is clicked.
- **TasksBox** is a stateless paged table. Its row buttons report the row task's id, status or the task itself.
- **TaskDialog** is the add/edit dialog. It copies the task with one field replaced, saves then closes, and picks its title from the task's id.

In the model, state that a component changes in place is a class. App's `tasks` is `App.TaskStore`. Todo's form and paging state is `Todo.TodoView`, which holds a reference to the `TaskStore` whose handlers are its `addTask` and `toggleComplete` props. The new values those handlers compute are pure functions (`App.Appended`, `App.Toggled`, `Todo.DraftTask`, `Pagination.PageWindow`). TasksBox and TaskDialog are pure, so they are only functions and lemmas. Callback calls are values: `TasksBox.Callback`, and `TaskDialog.DialogCall` sequences that record the order of calls.

Modules, one per file: `Wrappers` (Option), `Tasks` (the task record, JavaScript truthiness and `||`, `String.prototype.trim`), `Pagination` (the page window both tables use), `App`, `Todo`, `TasksBox`, `TaskDialog`.

Modelling choices:
- A due date (a dayjs object in the app) is an integer `Timestamp`. The current time, `dayjs()`, is the `now` parameter of `Todo.TodoView.HandleAddTask`.
- `id` is `Option<int>`. `None` stands for a missing key or `null`. Its truthiness follows JavaScript, so `0` is falsy too (`Tasks.IdIsTruthy`).
- `priority` is the raw select string. Todo's select starts at `''`, and `priority || 'low'` defaults exactly on `''`.
- React's state setters are modelled as plain assignments that run in order inside a handler. The handler reads the values from before the event.

The test at `todo-app/src/__tests__/TaskDialog.test.jsx:43` expects a `name` field. The component writes `text` (`TaskDialog.jsx:53`), and so does the model.

## Model

| member | source | states |
|---|---|---|
| `Tasks.StringOr` | todo-app/src/components/Todo.jsx:34-35 | the JavaScript or-operator on strings: `a` when `a` is non-empty, otherwise `b` |
| `Tasks.Flip` | todo-app/src/App.jsx:14 | the spread copy has `completed` negated and the same id, text, priority and due date |
| `Tasks.FlipTwice` | todo-app/src/App.jsx:14 | flipping twice gives back the task |
| `Tasks.TrimStart` | todo-app/src/components/Todo.jsx:34 | result is a suffix of the input; what was dropped is all whitespace; the result does not start with whitespace |
| `Tasks.TrimEnd` | todo-app/src/components/Todo.jsx:34 | result is a prefix of the input; what was dropped is all whitespace; the result does not end with whitespace |
| `Tasks.Trim` | todo-app/src/components/Todo.jsx:34 | `trim()` gives an infix of the input that starts where the leading whitespace ends and has no whitespace at either end |
| `Tasks.TrimDropsOnlyWhitespace` | todo-app/src/components/Todo.jsx:34 | the characters `trim()` removes before and after the result are all whitespace |
| `Tasks.TrimEmptyIff` | todo-app/src/components/Todo.jsx:34 | the trimmed input is empty exactly when the input is empty or all whitespace |
| `Tasks.TrimIdempotent` | todo-app/src/components/Todo.jsx:34 | trimming a trimmed string changes nothing |
| `Pagination.Slice` | todo-app/src/components/Todo.jsx:107 | `slice(begin, end)` is `s[begin..end]` within bounds; it is clipped at the end of the list; it is empty past the end or when `end <= begin` |
| `Pagination.PageWindow` | todo-app/src/components/Todo.jsx:107 | the rows shown are `tasks[page*rpp + i]` in list order; there are at most `rpp` of them, exactly `min(rpp, len - page*rpp)` when the page starts inside the list, and none otherwise |
| `Pagination.PageShowsEveryElement` | todo-app/src/components/Todo.jsx:107 | with a positive page size, element `j` is shown at row `j % rpp` of page `j / rpp` |
| `Pagination.PagesAreDisjoint` | todo-app/src/components/TasksBox.jsx:40 | rows on two different pages come from different list positions |
| `Pagination.ThreeRowsInPagesOfTwo` | todo-app/src/components/TasksBox.jsx:40 | `[A,B,C]` in pages of 2: page 0 is `[A,B]`, page 1 is `[C]`, page 5 is `[]` |
| `App.Appended` | todo-app/src/App.jsx:8-10 | `[...tasks, task]`: length grows by one, the old tasks keep their order and contents, and the new task is last |
| `App.Toggled` | todo-app/src/App.jsx:12-15 | the `map`: same length, the task at `index` flipped with its other fields kept, every other position unchanged, nothing changed for an index outside the list |
| `App.ToggleOutOfRange` | todo-app/src/App.jsx:13-14 | toggling an index outside the list leaves the list equal to the old one |
| `App.ToggleTwice` | todo-app/src/App.jsx:13-14 | toggling the same index twice restores the list |
| `App.TogglesCommute` | todo-app/src/App.jsx:13-14 | two toggles give the same list in either order |
| `App.ToggleThenAppend` | todo-app/src/App.jsx:8-15 | toggling an existing task and appending a task give the same list in either order |
| `App.ToggleJustAppended` | todo-app/src/App.jsx:8-15 | toggling at the old length after an append flips only the task just added |
| `App.TaskStore.constructor` | todo-app/src/App.jsx:6 | the list starts empty |
| `App.TaskStore.HandleAddTask` | todo-app/src/App.jsx:8-10 | the new list is `Appended(old list, task)` |
| `App.TaskStore.HandleToggleComplete` | todo-app/src/App.jsx:12-17 | the new list is `Toggled(old list, index)` |
| `Todo.InitialRowsPerPageIsOffered` | todo-app/src/components/Todo.jsx:30 | the initial page size 5 is one of the offered choices 5, 10 and 15 |
| `Todo.DraftTask` | todo-app/src/components/Todo.jsx:32-38 | text is the trimmed input; priority is the selected one, or `'low'` when none is selected; the due date is the chosen one, or `now` when none is chosen; `completed` is false; there is no id |
| `Todo.DraftOfBlankInput` | todo-app/src/components/Todo.jsx:34 | an empty or whitespace-only input gives the text `''` |
| `Todo.DraftPriorityIsOption` | todo-app/src/components/Todo.jsx:35 | when the select holds an option or nothing, the draft's priority is high, medium or low |
| `Todo.DisplayedTaskIndex` | todo-app/src/components/Todo.jsx:107 | the list position `page*rpp + row` holds the task shown in row `row` |
| `Todo.RowToggleMissesLaterPages` | todo-app/src/components/Todo.jsx:107-117 | as written, on a page after the first the row number is not the shown task's position; the toggle flips the task at the row number; the visible page stays the same |
| `Todo.RowToggleOnSecondPage` | todo-app/src/components/Todo.jsx:107-117 | with six tasks and five rows per page, page 1 shows task 5, and clicking it flips task 0 |
| `Todo.DisplayedToggleFlipsThatRow` | todo-app/src/components/Todo.jsx:107-117 | toggling the shown task's list position changes the visible page by flipping exactly that row |
| `Todo.WindowOfToggled` | todo-app/src/components/Todo.jsx:107 | after a toggle at any list position, the page has the same rows, with only the row at that position flipped if it is on the page |
| `Todo.FirstPageIndicesAgree` | todo-app/src/components/Todo.jsx:107-117 | on page 0 the row number is the shown task's list position |
| `Todo.TodoView.constructor` | todo-app/src/components/Todo.jsx:26-30 | empty input, empty priority, no due date, page 0, 5 rows per page |
| `Todo.TodoView.SetInput` | todo-app/src/components/Todo.jsx:73 | the text field's change sets `input` and nothing else |
| `Todo.TodoView.SetPriority` | todo-app/src/components/Todo.jsx:79 | the select's change sets `priority` and nothing else |
| `Todo.TodoView.SetDueDate` | todo-app/src/components/Todo.jsx:91 | the picker's change sets `dueDate` and nothing else |
| `Todo.TodoView.HandleAddTask` | todo-app/src/components/Todo.jsx:32-44 | App's list becomes the old list followed by the draft built from the form as it was; input and priority are reset to `''` and the due date to null; page and page size are not touched |
| `Todo.TodoView.ResetForm` | todo-app/src/components/Todo.jsx:41-43 | input and priority become `''` and the due date null; nothing else changes |
| `Todo.TodoView.HandleChangePage` | todo-app/src/components/Todo.jsx:46-48 | only `page` changes, to the new page |
| `Todo.TodoView.HandleChangeRowsPerPage` | todo-app/src/components/Todo.jsx:50-53 | `rowsPerPage` becomes the new size and `page` goes back to 0 |
| `Todo.TodoView.VisibleRows` | todo-app/src/components/Todo.jsx:107 | row `i` is list task `page*rpp + i`; there are exactly `min(rowsPerPage, len - page*rpp)` rows when the page starts inside the list, and none otherwise |
| `Todo.TodoView.PagerProps` | todo-app/src/components/Todo.jsx:135-143 | the pagination count is the whole list's length, never less than the rows shown; the choices are 5, 10 and 15 |
| `Todo.TodoView.ToggleRow` | todo-app/src/components/Todo.jsx:107-118 | a row or checkbox click hands App the row's position on the page, which lies inside the list, and App's list becomes the old list toggled there |
| `TasksBox.Rows` | todo-app/src/components/TasksBox.jsx:40 | the contiguous window from `page*rowsPerPage` in list order, exactly `min(rowsPerPage, len - page*rowsPerPage)` long when the page starts inside the list, empty for a page past the end |
| `TasksBox.RowCallback` | todo-app/src/components/TasksBox.jsx:48-64 | the checkbox calls the toggle with the task's own id and current status; Edit calls the dialog with the task record; Delete calls delete with the task's id; each control calls exactly its own callback |
| `TasksBox.ClickRow` | todo-app/src/components/TasksBox.jsx:40-64 | a click on row `row` reports the task at list position `page*rowsPerPage + row` |
| `TasksBox.RowIdNamesDisplayedTask` | todo-app/src/components/TasksBox.jsx:40-64 | when ids are unique, the id a row's checkbox or Delete reports belongs to the shown task and to no other task in the list |
| `TasksBox.PagerProps` | todo-app/src/components/TasksBox.jsx:73-80 | the pagination count is the whole list's length, never less than the rows shown; the only choice is 10 |
| `TaskDialog.HandleChange` | todo-app/src/components/TaskDialog.jsx:26-31 | the copy holds the new value in the chosen field; every other field, the id, the due date and the status are kept |
| `TaskDialog.HandleDateChange` | todo-app/src/components/TaskDialog.jsx:33-38 | the copy differs from the task in the due date only |
| `TaskDialog.ChangeToSameValue` | todo-app/src/components/TaskDialog.jsx:26-31 | writing a field's current value gives the same task |
| `TaskDialog.LaterChangeWins` | todo-app/src/components/TaskDialog.jsx:26-31 | after two changes of one field, only the later value is kept |
| `TaskDialog.ChangesCommute` | todo-app/src/components/TaskDialog.jsx:26-38 | changes of different fields, or of a field and the due date, give the same task in either order |
| `TaskDialog.HandleSave` | todo-app/src/components/TaskDialog.jsx:40-43 | Save calls `onSave` with the task unchanged, then `onClose`, and nothing else |
| `TaskDialog.HandleCancel` | todo-app/src/components/TaskDialog.jsx:79 | Cancel calls only `onClose` and saves nothing |
| `TaskDialog.Title` | todo-app/src/components/TaskDialog.jsx:47 | "Edit Task" exactly when the id is truthy, "Add New Task" exactly when it is not |
| `TaskDialog.FalsyIdsGiveAddTitle` | todo-app/src/components/TaskDialog.jsx:47 | a null id, and also the id 0, give "Add New Task" |
| `TaskDialog.EditsKeepTitle` | todo-app/src/components/TaskDialog.jsx:26-47 | no field or date change switches the dialog between add and edit |
| `TaskDialog.BlankTaskDialog` | todo-app/src/__tests__/TaskDialog.test.jsx:11-58 | the blank task with a null id gets "Add New Task", and Save reports that task unchanged, then closes |

## Findings

| source | as written | input that shows it | evidently intended | confidence | as-written member | corrected member |
|---|---|---|---|---|---|---|
| todo-app/src/components/Todo.jsx:107-117 | a row click passes `index`, the row's position within the page slice, to `toggleComplete`, and App flips `tasks[index]` | six tasks, five rows per page, page 1: the only row shows task 5, and clicking it flips task 0 while task 5 stays as it was | flip the shown task, at list position `page * rowsPerPage + index` | high; not executed | `Todo.RowToggleMissesLaterPages` | `Todo.DisplayedToggleFlipsThatRow` |

`Todo.TodoView.ToggleRow` keeps the code's behaviour. `Todo.DisplayedTaskIndex` is the corrected position, and `Todo.DisplayedToggleFlipsThatRow` proves that toggling there flips exactly the clicked row. TasksBox does not have this problem: its rows report the task's own id (`TasksBox.RowIdNamesDisplayedTask`).

## Left out

- All rendering: MUI tables, dialogs, selects, date pickers, styling, `key` props, and the `dayjs(...).format(...)` calls that display due dates.
- dayjs itself: a due date is an integer instant, and `dayjs()` is the `now` parameter.
- `parseInt(event.target.value, 10)` in the rows-per-page handler: the new size is taken as a natural number, so a size that does not parse (`NaN`) is not modelled.
- React batching: if two events arrive before a re-render, the `tasks` closure is stale and an add can be lost. The model runs each handler on the latest state.
- The sort-button callbacks of TasksBox (`handleSortPriorityChange`, `handleSortDueDateChange`) and the parent handlers behind its toggle, edit and delete callbacks. Their implementations are not part of this model; TasksBox only forwards the clicks.
- FilterBox.jsx and MetricsBox.jsx: they only display values passed in. The filtering, sorting and average-time computations are not in the modelled code.
- The backend REST calls: the modelled code makes none.
- `todo-app/src/__tests__/Todo.test.jsx`: it describes a different component, with a backend, a Save button, Delete and sort headers, so no property is drawn from it.
- TaskDialog.HandleChange: `[field]` with any key is narrowed to the two fields the dialog binds, `text` and `priority`.
- Strings are sequences of Unicode scalar values. JavaScript strings are UTF-16 code units, so a lone surrogate cannot be represented. Every character `trim` removes is in the Basic Multilingual Plane, so trimming is not affected.
- The `id` value is an integer. A string id from a backend, where `''` is falsy, is not modelled.
