# Todo list state machine

A model of the logic of a small React todo application (French labels:
priorities `Urgente`, `Moyenne`, `Basse`, filter `Tous`). The model covers:

- the `App` component's state, its handlers `addTodo`, `deleteTodo`,
  `toggleTodo`, `toggleSelect`, `bulkDelete`, `bulkComplete`, `clearSearch`,
  the sort-direction button, the setters wired to the form fields, the
  hydration of the stored list and the derived values `filteredTodos` and
  the counters and progress percentage;
- the `TodoItem` row: its local edit session (`handleEdit`, `saveEdit`,
  the edit field's handlers) and its checkbox, which selects a todo that is
  not completed and un-completes a completed one.

Modules:

- `Text` (`text.dfy`): the string operations the app relies on. These are
  `trim` (the ECMAScript whitespace set), `toLowerCase` (ASCII letters) and
  `includes`. `Includes` is the left-to-right scan, proved equivalent to
  "occurs at some index".
- `Sequences` (`sequences.dfy`): `filter` and `map` on sequences, the
  subsequence order, and the facts about them that the proofs use.
- `TodoList` (`todo_list.dfy`): the `Todo` record and the other value types.
  It holds each handler's update of the list as a pure function, the
  invariant `Consistent` those updates keep, and `filteredTodos`. The stable
  sort by priority is given by its specification: each priority's todos in
  list order, one priority after the other. The file proves that this is
  sorted for the source's comparator, is a permutation, is stable, and is
  the only sequence with those properties. It also holds the statistics.
- `TodoItem` (`todo_item.dfy`): the row as a class `TodoRow` with the
  props and the local state as fields, and the checkbox's decision
  functions.
- `TodoApp` (`app.dfy`): the `App` component as a class whose fields are
  its state variables. Each handler is a method that states the whole new
  state. It keeps `Valid` under the condition its contract names: always for
  `deleteTodo` and `toggleTodo`, for an unused id in `addTodo`, for the id
  of a listed todo that is not completed in `toggleSelect`, and for a list
  with unique ids in the two bulk operations. `RowCallback` connects a row's
  callbacks to the handlers the way the parent binds them.
- `TodoScenario` (`scenario.dfy`): a whole session driven through the
  class. It adds two todos, filters by priority, completes one and
  searches, stating the list, the views and the progress after each step.

Each handler runs as one atomic transition on the current state. The
clock reading `Date.now()` that becomes a new todo's id is a parameter.
Hydration receives the already decoded stored list, or `None` when
nothing is stored.

## Model

| member | source | states |
|---|---|---|
| Text.Trim | src/App.tsx:51 | `trim`: the leading whitespace is dropped, then the trailing whitespace (the ECMAScript whitespace and line terminators) |
| Text.IsBlank | src/App.tsx:51 | `input.trim() === ""` |
| Text.TrimSpec | src/App.tsx:51 | the trimmed text is a contiguous slice of the input with only whitespace before it and after it; it is empty exactly when every character is whitespace; otherwise it starts and ends with a non-whitespace character |
| Text.TrimKeeps | src/App.tsx:51-54 | a text that neither starts nor ends with whitespace is its own trim, so it is stored as typed |
| Text.TrimIdempotent | src/App.tsx:54 | trimming an already trimmed text changes nothing, so the text stored by `addTodo` is its own trim |
| Text.Lower | src/App.tsx:31 | lower-casing keeps the length and maps each character to its lower-case form |
| Text.LowerIdempotent | src/App.tsx:31 | lower-casing twice is lower-casing once |
| Text.Includes | src/App.tsx:31 | `includes`: the needle is compared with the haystack at each position from the left |
| Text.IncludesIff | src/App.tsx:31 | the `includes` scan answers yes exactly when the needle occurs at some index of the haystack |
| Text.EmptyIncluded | src/App.tsx:31 | the empty search term is included in every text |
| Sequences.Filter | src/App.tsx:30-31 | `filter` keeps exactly the elements that pass the test and is never longer than its input |
| Sequences.Map | src/App.tsx:23 | `s.map(f)`: the sequence of `f` applied to each element, in order, as used by hydration, `toggleTodo` and `bulkComplete` |
| Sequences.FilterIsSubsequence | src/App.tsx:65 | `filter` keeps the survivors in their original order |
| TodoList.Added | src/App.tsx:50-59 | a blank input leaves the list unchanged; otherwise exactly one todo is put in front of the unchanged old list, with the given id, the trimmed non-empty text, the chosen priority, not completed and not editing |
| TodoList.Deleted | src/App.tsx:65 | exactly the todos with another id stay, in order, each as often as before; an absent id leaves the list unchanged; the id leaves the set of ids |
| TodoList.Toggled | src/App.tsx:74 | same length; exactly the todos with that id flip `completed`; id, text, priority and editing flag are kept everywhere |
| TodoList.ToggledTwice | src/App.tsx:74 | toggling the same id twice restores the list |
| TodoList.ToggledAbsent | src/App.tsx:74 | toggling an id no todo carries leaves the list unchanged |
| TodoList.ToggledSelection | src/App.tsx:83-88 | membership of the id flips and the membership of every other id is kept |
| TodoList.ToggledSelectionTwice | src/App.tsx:83-88 | toggling the selection of the same id twice restores the selection |
| TodoList.BulkDeleted | src/App.tsx:92 | exactly the todos whose id is not selected stay, in order, each as often as before; the selected ids leave the set of ids |
| TodoList.BulkCompleted | src/App.tsx:97 | same length; selected todos become completed and change nothing else; all other todos are unchanged |
| TodoList.Hydrated | src/App.tsx:23 | the list read back has the stored length, every todo not editing and otherwise as stored |
| TodoList.AddKeepsConsistent | src/App.tsx:50-61 | adding under an id not yet in use keeps ids unique, the selection within the listed ids and no completed todo selected |
| TodoList.DeleteKeepsConsistent | src/App.tsx:64-71 | `deleteTodo` keeps the state consistent |
| TodoList.ToggleKeepsConsistent | src/App.tsx:73-80 | `toggleTodo` keeps the state consistent because the toggled id leaves the selection |
| TodoList.ToggleSelectKeepsConsistent | src/App.tsx:82-89 | selecting or deselecting a listed todo that is not completed keeps the state consistent |
| TodoList.BulkDeleteKeepsConsistent | src/App.tsx:91-94 | after `bulkDelete` the state is consistent with an empty selection whenever ids were unique |
| TodoList.BulkCompleteKeepsConsistent | src/App.tsx:96-99 | after `bulkComplete` the state is consistent with an empty selection whenever ids were unique |
| TodoList.HydratedConsistent | src/App.tsx:23-26 | a hydrated list with unique ids and the empty initial selection is consistent |
| TodoList.OfPriority | src/App.tsx:43-45 | a priority's todos are exactly the listed todos of that priority |
| TodoList.Rank | src/App.tsx:33-35 | `prioOrder`: `Urgente` 3, `Moyenne` 2, `Basse` 1 |
| TodoList.Compare | src/App.tsx:36 | the comparator: rank difference, `a - b` ascending and `b - a` descending |
| TodoList.SortByPriority | src/App.tsx:32-37 | the result of the stable sort: each priority's todos in list order, the priorities in comparator order |
| TodoList.PassesPriority | src/App.tsx:30 | the priority filter: everything passes `Tous`, otherwise the todo's priority must be the filter's |
| TodoList.MatchesSearch | src/App.tsx:31 | the search filter: the lower-cased term is included in the lower-cased text |
| TodoList.Shown | src/App.tsx:30-31 | the two filter stages of `filteredTodos` before the sort: the priority filter, then the search filter, in list order |
| TodoList.FilteredTodos | src/App.tsx:29-37 | `filteredTodos`: the priority filter, then the search filter, then the sort by priority |
| TodoList.SortByPrioritySorted | src/App.tsx:32-37 | the sort by priority has no pair out of order for the source's comparator, ascending or descending |
| TodoList.SortByPriorityPermutes | src/App.tsx:32-37 | the sort by priority is a permutation of its input |
| TodoList.SortByPriorityStable | src/App.tsx:32-37 | the sort by priority keeps the todos of each priority in their input order |
| TodoList.SortedIsBuckets | src/App.tsx:32-37 | a sequence already sorted by the comparator is its own sort by priority |
| TodoList.StableSortUnique | src/App.tsx:32-37 | any sequence sorted by the comparator that keeps each priority's todos in input order equals the sort by priority, so the model is the stable sort's result |
| TodoList.FilteredTodosMembers | src/App.tsx:29-37 | `filteredTodos` shows exactly the listed todos that pass the priority filter (everything for `Tous`) and whose lower-cased text contains the lower-cased term |
| TodoList.FilteredTodosOrder | src/App.tsx:29-37 | `filteredTodos` is a permutation of the in-order filtered subsequence, sorted for the comparator and stable |
| TodoList.FiltersCommute | src/App.tsx:30-31 | applying the search before the priority filter gives the same todos in the same order |
| TodoList.UnfilteredShowsAll | src/App.tsx:29-37 | with `Tous` and an empty search every todo is shown, as the sort by priority of the whole list |
| TodoList.Progress | src/App.tsx:48 | 0 for an empty list; otherwise the integer nearest to 100·completed/total, halves rounded up; never above 100 when completed ≤ total |
| TodoList.ProgressExamples | src/App.tsx:48 | 1 of 3 is 33, 1 of 4 is 25, 1 of 2 is 50, an empty list is 0 |
| TodoList.PriorityCountsSum | src/App.tsx:43-46 | the three priority counts add up to the length of the list |
| TodoList.Statistics | src/App.tsx:43-48 | the priority counters add up to the total, completed ≤ total, progress is the rounded percentage and at most 100 |
| TodoList.ButtonCount | src/App.tsx:181-199 | the count printed on a filter button: `totalCount` for `Tous`, otherwise the counter of that priority |
| TodoList.FilterButtonCount | src/App.tsx:176-200 | the count printed on each filter button equals the number of rows that button shows with an empty search |
| TodoItem.SaveAccepted | src/TodoItem.tsx:34 | the guard of `saveEdit`: Enter or no event, and a buffer that is not blank after `trim` |
| TodoItem.Checked | src/TodoItem.tsx:58 | the checkbox's `checked`: completed or selected |
| TodoItem.CheckboxCallback | src/TodoItem.tsx:59-62 | a todo that is not completed fires `onToggleSelect(todo.id)` and never `onToggleComplete`; a completed todo fires `onToggleComplete` and never `onToggleSelect` |
| TodoItem.TodoRow.constructor | src/TodoItem.tsx:23-24 | a fresh row is not editing and its buffer holds the todo's text |
| TodoItem.TodoRow.Rerender | src/TodoItem.tsx:22-24 | new props replace `todo` and `isSelected`; the local state survives the re-render |
| TodoItem.TodoRow.HandleEdit | src/TodoItem.tsx:26-31 | when not editing, the field opens on the todo's text; when already editing, nothing changes |
| TodoItem.TodoRow.ChangeEditText | src/TodoItem.tsx:69 | typing replaces the buffer and nothing else |
| TodoItem.TodoRow.SaveEdit | src/TodoItem.tsx:33-38 | the session closes exactly when the trigger is Enter or blur and the buffer is not blank; buffer, todo and selection never change |
| TodoItem.TodoRow.EditKeyDown | src/TodoItem.tsx:71 | only Enter with a non-blank buffer closes the session |
| TodoItem.TodoRow.EditBlur | src/TodoItem.tsx:70 | leaving the field closes the session unless the buffer is blank |
| TodoItem.TodoRow.CheckboxChange | src/TodoItem.tsx:59-62 | the change fires the callback `CheckboxCallback` chooses and leaves the row unchanged |
| TodoItem.EditIsDiscarded | src/TodoItem.tsx:33-38 | after opening the field, typing a non-blank text and leaving the field, the row shows the todo's own text and reopening starts from it, so the edit is lost |
| TodoApp.AfterCallback | src/App.tsx:227-229 | what each row callback does to the list and the selection: `deleteTodo(todo.id)`, `toggleTodo(todo.id)`, `toggleSelect(id)` |
| TodoApp.CheckboxChangeFlipsChecked | src/TodoItem.tsx:58-62 | once the parent handles a checkbox change, the checkbox (`completed` or selected) shows the opposite of before, and the todo is not completed |
| TodoApp.CheckboxChangeKeepsConsistent | src/TodoItem.tsx:59-62 | whatever a listed todo's checkbox fires keeps the state consistent |
| TodoApp.App.constructor | src/App.tsx:16-26 | the list is the stored one with every editing flag reset, or empty; every other field has its initial value; the state is consistent when the stored ids are unique |
| TodoApp.App.VisibleTodos | src/App.tsx:29-37 | `filteredTodos` as the component recomputes it from its list, filter, search term and sort direction |
| TodoApp.App.CurrentStats | src/App.tsx:43-48 | the counters and the progress as the component recomputes them from its list |
| TodoApp.App.AddTodo | src/App.tsx:50-62 | the list becomes `Added`; a blank input keeps input and priority, otherwise they reset to "" and `Moyenne`; other fields unchanged; consistency kept when the id is fresh |
| TodoApp.App.DeleteTodo | src/App.tsx:64-71 | the list becomes `Deleted`, the id leaves the selection, other fields unchanged, consistency kept |
| TodoApp.App.ToggleTodo | src/App.tsx:73-80 | the list becomes `Toggled`, the id is not selected afterwards whatever it was before, other fields unchanged, consistency kept |
| TodoApp.App.ToggleSelect | src/App.tsx:82-89 | the selection becomes `ToggledSelection`, the list and all else unchanged; consistency kept for a listed todo that is not completed |
| TodoApp.App.BulkDelete | src/App.tsx:91-94 | the list becomes `BulkDeleted`, the selection is empty, other fields unchanged |
| TodoApp.App.BulkComplete | src/App.tsx:96-99 | the list becomes `BulkCompleted`, the selection is empty, other fields unchanged |
| TodoApp.App.ClearSearch | src/App.tsx:101 | the search term is empty, nothing else changes, and the view is the priority filter alone, sorted |
| TodoApp.App.ToggleSortDirection | src/App.tsx:165 | the direction flips between ascending and descending, nothing else changes |
| TodoApp.App.SetInput | src/App.tsx:130 | only the pending input changes |
| TodoApp.App.SetPriority | src/App.tsx:136 | only the pending priority changes |
| TodoApp.App.SetSearchTerm | src/App.tsx:156 | only the search term changes |
| TodoApp.App.SetFilter | src/App.tsx:179-197 | only the filter changes |
| TodoApp.App.RowCallback | src/App.tsx:227-229 | a row's delete, toggle-complete and toggle-select callbacks act on the list and selection as `deleteTodo(todo.id)`, `toggleTodo(todo.id)` and `toggleSelect(id)` |
| TodoScenario.SessionTexts | src/App.tsx:31 | "Buy milk" and "Read book" are their own trim, and the search "book" matches "Read book" and not "Buy milk" |
| TodoScenario.Session | src/App.tsx:29-101 | on a fresh list, two additions list the newest first; the urgent filter shows the urgent todo alone; completing it gives 1 of 2 done and 50 percent; with every priority and a term found only in the other text, the view is that todo alone |

## Left out

- Rendering, styling, icons, the priority badge colours and the visibility of the bulk bar are presentation only.
- Persistence through `localStorage` and `JSON.parse`/`JSON.stringify` is browser I/O. Hydration receives the decoded list. The crash on a malformed stored value is not modelled, and neither is the write-back effect.
- TodoApp.App.AddTodo: the id is the `Date.now()` reading, taken as a parameter with no precondition, as in the source. Two additions within the same millisecond get the same id. Consistency (unique ids) is therefore promised only when the id is not already in use.
- React's batching of `setState`, effect timing and the `todos` captured by stale closures are framework scheduling. Each handler is one atomic transition on the current state.
- TodoList.Progress: `Math.round(completed / total * 100)` on IEEE doubles is modelled as exact round-half-up. Where the floating-point product lands just below a half, the source can round down.
- Text.Lower: `toLowerCase` folds ASCII letters only; other Unicode case mappings are not modelled.
- The props that only pass values through (`value`, `checked` as rendered, `autoFocus`) have no behaviour beyond the functions above.
