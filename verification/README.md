# To-do list page: task-list state machine

`script.js` wires a to-do page: a form adds or edits tasks, each listed task has
a checkbox, an edit button and a delete button, and three buttons choose which
tasks are listed. Behind the DOM code sits a small state machine over three
variables — the task list, the id of the task being edited (or `null`) and the
current filter. This project lifts that state machine out of the event handlers
and models it in Dafny as pure functions over an immutable state:

- `wrappers.dfy` — `Option` (JavaScript `null` or a value) and `Result`.
- `seqs.dfy` — `Seqs.Filter`, the model of `Array.prototype.filter`, and
  `Seqs.Subseq`, order-preserving selection, with the lemmas about them.
- `text.dfy` — `Text.Trim`, the model of `String.prototype.trim` over the
  ECMAScript WhiteSpace and LineTerminator characters.
- `tasks.dfy` — `Task`, `FilterMode`, `State`; one transition per handler
  (`Submit`, `Toggle`, `Delete`, `StartEdit`, `SetFilter`) and the filtered
  view `View`.
- `session.dfy` — user events, `Step` and `Run` over event sequences, the
  invariant (distinct ids, non-empty trimmed texts) and the properties that
  relate several operations.

Modelling choices:

- The checkbox and edit-button handlers close over the task object itself, and
  the list is re-rendered after every change, so each live button belongs to a
  task that is in the list. `Toggle` and `StartEdit` therefore take the task's
  position in the full (unfiltered) list, which is what identifies the object
  even when two tasks share an id.
- The id of a new task is the clock reading `Date.now()`; it is a parameter
  (`newId`), and the invariant assumes the clock gives an id not yet in use
  (`Session.Enabled`).
- Deleting a task does not cancel an edit in progress (script.js:121-124 leave
  `editingTaskId` alone). A later submission then matches no task: the list
  stays as the deletion left it and the typed text is not stored
  (`Session.EditOfDeletedTaskDiscardsInput`).
- Other descriptions of this application mention a `notified` flag, undo/redo,
  swap-style reordering, due-date notifications, local storage, CSV export, a
  "not found" error when editing a missing task and due-date validation.
  `script.js` has none of these: an edit of a missing id silently changes
  nothing, and due dates are stored unchecked. The model follows the code.

## Model

| member | source | states |
|---|---|---|
| Seqs.Filter | script.js:69 | the kept elements are exactly those of the input the callback accepts, in their original order, never more than the input; an all-accepting callback returns the input |
| Seqs.FilterAppend | script.js:122 | filtering a concatenation is the concatenation of the filtered parts |
| Seqs.FilterPartition | script.js:68-72 | a filter and its complement together keep every element exactly as often as the input holds it |
| Text.SkipLeading | script.js:36 | the index returned ends a run of white space and holds a non-space, unless it is the end of the string |
| Text.SkipTrailing | script.js:36 | the index returned starts a run of white space reaching the given end, and the character before it, if within the range, is a non-space |
| Text.Trim | script.js:36 | the result is the part of the input between white-space runs, starts and ends with a non-space, and is empty exactly when the input is all white space |
| Text.TrimUnique | script.js:36 | any non-empty trimmed part of the input surrounded by white space equals the trimmed text |
| Text.TrimFixesTrimmed | script.js:36 | trimming leaves a string unchanged exactly when it has no white space at either end, and trimming twice is trimming once |
| Tasks.View | script.js:66-72 | the listed tasks are the whole list for the all filter, and otherwise an order-preserving selection holding exactly the completed or exactly the pending tasks |
| Tasks.ViewPartition | script.js:67-72 | the completed and pending views together hold every task exactly once, so their lengths add up to the list's |
| Tasks.Submit | script.js:34-63 | refused exactly when the input is all white space; otherwise appends one pending task with the trimmed text after an unchanged list, or, while editing, replaces text, due date and priority of the edited task only, keeping ids, completion and length; ends the edit; a missing edited id leaves the list unchanged |
| Tasks.Toggle | script.js:84-87 | the chosen task's completion becomes the checkbox value; its other fields, every other task, the edit and the filter are unchanged |
| Tasks.Delete | script.js:121-124 | the result is an order-preserving selection without the id that keeps every task with another id; an absent id changes nothing; the edit and filter are unchanged |
| Tasks.StartEdit | script.js:111-116 | the edited id becomes the chosen task's id; list and filter unchanged |
| Tasks.SetFilter | script.js:133-144 | only the filter changes; the list and edit stay, and the page then lists the new filter's view of the same list |
| Session.RejectedSubmitIsNoOp | script.js:36-40 | an all-white-space submission leaves the whole state, edited id included, as it was |
| Session.DeleteRemovesOne | script.js:122 | with distinct ids, deleting a listed id shortens the list by exactly one and an unlisted id by none |
| Seqs.SubseqKeepsDistinct | script.js:122 | a selection from a sequence whose keys are pairwise distinct has pairwise distinct keys |
| Session.DeleteKeepsInv | script.js:122 | deleting keeps ids pairwise distinct and texts non-empty and trimmed |
| Session.StepPreservesInv | script.js:34-144 | every event keeps ids pairwise distinct and every text non-empty and trimmed, given fresh clock ids |
| Session.RunPreservesInv | script.js:34-144 | any run of events from a state with distinct ids and valid texts ends in such a state |
| Session.ReachableStatesValid | script.js:14-16 | from the loaded page, every reachable state has distinct ids and non-empty trimmed texts |
| Session.ToggleUndo | script.js:84-85 | setting a checkbox back to its previous value restores the state |
| Session.AddThenDelete | script.js:52-60 | deleting the id of a task just added restores the previous list |
| Session.EditUnchangedRoundTrip | script.js:44-51 | clicking edit and submitting the prefilled form unchanged leaves the list as it was and ends the edit |
| Session.EditOfDeletedTaskDiscardsInput | script.js:44-51 | after editing a task that is then deleted, a valid submission stores nothing and ends the edit |
| Session.BuyMilkScenario | script.js:53-59 | adding "Buy milk" and ticking it yields one completed task that the completed view shows and the pending view omits |

## Left out

- DOM construction and rendering (script.js:74-129), including the label's
  deadline suffix and the capitalised priority: presentation only.
- Theme switching (script.js:19-31): it only sets styles and holds no state.
- `Date.now()`: a clock call, modelled as the `newId` parameter with freshness
  assumed where the invariant needs it.
- `alert`, `form.reset()`, filling and reading the form inputs: I/O. The edit
  button's prefill appears only as the arguments of
  `Session.EditUnchangedRoundTrip`.
- Text.IsSpace: the Zs category is taken as it stands in current Unicode
  versions; an engine with another Unicode table may trim other characters.
- Strings are sequences of Unicode scalar values, not UTF-16 code units: a
  lone surrogate cannot be represented. Every white-space character lies in
  the Basic Multilingual Plane, so trimming is unaffected.
- Tasks.Delete: its contract does not count copies of identical records;
  under distinct ids `Session.DeleteRemovesOne` pins the length.
- Due date and priority are opaque strings: the code never checks them.
