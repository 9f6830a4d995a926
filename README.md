# To-do list task store, modelled in Dafny

The app keeps two lists of task texts on its main screen (`TaskScreen` in
App.js): the pending tasks and the completed tasks, plus the text in the input
box. Four handlers change them: add the typed text to the pending list (only if
it is not blank, and untrimmed), delete a pending task, complete a pending task
(move it to the end of the completed list) and delete a completed task. The
completed-tasks screen (`CompletedTasksScreen`) keeps its own completed list with
the same delete handler.

The project has three modules:

- `JsString` (js_string.dfy): JavaScript's `trim`, with its whitespace set, and
  the proof that trimming gives the empty string exactly when the text is blank.
- `TaskState` (task_state.dfy): the main screen's state as a value (`Screen`),
  the user events (`Event`), one step of the store (`Step`) and whole sessions
  (`Run`), with lemmas about what sessions can do. Examples: nothing reaches the
  pending list except through an add, so no completed task ever comes back.
  Also, adds append their texts in call order.
- `App` (app.dfy): the two screens as classes with `pending`, `completed` and
  `input` fields. There is one modifying method per handler. Each method states
  its new state by slicing and concatenation. Each handler of the main screen is
  also proved to make the move that `TaskState.Step` describes; the
  completed-tasks screen's delete is stated by slicing only.

Handlers take row indices only from the rendered lists (App.js:94-99,
165-170), so each index handler requires `0 <= index < |list|`.

## Model

| member | source | states |
|---|---|---|
| `JsString.IsWhitespace` | App.js:55 | the characters `trim` removes, ECMAScript's WhiteSpace and LineTerminator set: space, tab, line feed and carriage return are among them, and no ASCII letter or digit is |
| `JsString.Trim` | App.js:55 | `String.prototype.trim`: the result is no longer than the text and, unless empty, starts and ends with a non-whitespace character |
| `JsString.TrimStart` | App.js:55 | the leading-whitespace removal of `trim`: the result is a suffix of the text, starts with a non-whitespace character (or is empty), and everything dropped is whitespace |
| `JsString.TrimEnd` | App.js:55 | the trailing-whitespace removal of `trim`: the result is a prefix of the text, ends with a non-whitespace character (or is empty), and everything dropped is whitespace |
| `JsString.TrimEmptyIffBlank` | App.js:55 | `trim()` is empty (falsy) exactly when every character of the input is whitespace |
| `TaskState.RemoveAt` | App.js:62-63 | `splice(index, 1)` on a copy: one element shorter, elements before the index kept, elements after it shifted down by one, and exactly the element at the index removed from the multiset |
| `TaskState.Appended` | App.js:55-56 | an add whose input is not blank appends exactly that untrimmed input; every other event (and an add of a blank input) appends nothing |
| `TaskState.Step` | App.js:53-78 | the value model of the handlers (typing at App.js:111 included): the task count rises by one only for an add of a non-blank input and falls by one only for a delete; only completing or deleting a completed task touches the completed list; the input changes only by typing or a successful add (further statements about it: `StepBounds`, `InputStep`) |
| `TaskState.StepBounds` | App.js:53-78 | completing keeps the multiset of all tasks unchanged; no event adds to the pending list, or to the screen at all, anything but the text an add appends |
| `TaskState.InputStep` | App.js:53-59 | typing or pressing add leaves the completed list alone and appends to the pending list only the text the add appends |
| `TaskState.TypeThenAdd` | App.js:53-59 | typing a non-blank text and pressing add appends that text and clears the input |
| `TaskState.PendingOnlyFromAdds` | App.js:53-78 | after any session, every pending task was pending at its start or was appended by one of its adds: no task moves from completed back to pending |
| `TaskState.PoolOnlyFromAdds` | App.js:53-78 | after any session, the tasks on the screen are among those at its start and those added, and their count is at most the start count plus the adds |
| `TaskState.CompletedOnlyGrows` | App.js:67-78 | in a session without a completed-task delete, the completed list only grows at its end (the old list is a prefix of the new) |
| `TaskState.AddsAppendInOrder` | App.js:53-59 | in a session of typing and adding only, the pending list gains exactly the added texts in order and the completed list is unchanged |
| `TaskState.TypeAndAddAppends` | App.js:53-59 | typing and adding non-blank texts one after another appends exactly those texts, in order, and leaves the input empty |
| `TaskState.FreshScreenAdds` | App.js:14-59 | from a freshly mounted screen, adding non-blank texts leaves the pending list equal to those texts in call order and the completed list empty |
| `TaskState.AddAsWritten` | App.js:14-59 | pressing add with the input as declared (undefined until typed) throws exactly when nothing was typed; a typed non-blank text is appended untrimmed and the input cleared; a typed blank text leaves everything as it was |
| `TaskState.AddBeforeTypingThrows` | App.js:14-55 | pressing add on a fresh screen, as written, throws a TypeError |
| `TaskState.AddBeforeTypingIsNoOp` | App.js:53-59 | with the input starting empty, pressing add before typing changes nothing |
| `App.TaskScreen.constructor` | App.js:14-16 | both lists start empty and the input starts as the empty string |
| `App.TaskScreen.SetTask` | App.js:111 | the input's change handler stores the typed text and leaves both lists alone |
| `App.TaskScreen.HandleAddTask` | App.js:53-59 | a non-blank input is appended untrimmed at the end of the pending list and the input is cleared; a blank input changes nothing; the completed list is unchanged |
| `App.TaskScreen.DeleteTask` | App.js:61-65 | the pending list becomes `pending[..i] + pending[i+1..]`, one shorter; the completed list and input are unchanged |
| `App.TaskScreen.DeleteCompletedTask` | App.js:67-71 | the completed list becomes `completed[..i] + completed[i+1..]`, one shorter; the pending list and input are unchanged |
| `App.TaskScreen.CompleteTask` | App.js:73-78 | the pending list loses the element at `i` and the completed list gains it at its end; the multiset of all tasks and their total count are unchanged |
| `App.CompletedTasksScreen.constructor` | App.js:126 | the completed-tasks screen's list starts empty |
| `App.CompletedTasksScreen.DeleteCompletedTask` | App.js:147-151 | the completed list becomes `completed[..i] + completed[i+1..]`, one shorter |

## Left out

- Persistence through AsyncStorage is not modelled (App.js:18-51, 128-145). This covers loading both lists at mount, writing them on every change and the JSON encoding. These are asynchronous calls into a library that is not part of this model. So nothing is proved about a saved list loading back equal, a missing key loading as empty, or unparsable text loading as empty.
- The race between the mount-time write of the empty lists and the load (App.js:41-47) is not modelled. It depends on asynchronous scheduling.
- The completed-tasks screen's separate copy of the completed list is not linked to the main screen's copy. In the app the two meet only through storage.
- Navigation, `Keyboard.dismiss()` (App.js:54), rendering and styles are not modelled. Neither are components/Task.js and components/CompletedTask.js, which only display a task and forward their two callbacks.
- `splice` with an out-of-range or negative index is not modelled. An index at or past the end removes nothing, and `completeTask` then appends `undefined`. A negative index counts from the end, so `completeTask` moves that element. An index below minus the length is clamped to 0, so the first element is removed. The screens pass only indices of rendered rows, so the index handlers require a valid index. The code does not reject an invalid index, and the model follows the code.
- React's asynchronous state updates are treated as immediate. Each handler is one atomic step over the state of the last render. Two events between renders, which would both see the same stale lists, are not modelled.
- `App.TaskScreen` starts its input as `""` rather than undefined. With undefined, pressing add before typing throws (see Findings, where the as-written behaviour is modelled separately).
- `JsString` models characters as Unicode scalar values, whereas JavaScript strings are UTF-16 code units. Every character `trim` removes lies in the Basic Multilingual Plane, so the blank test is the same either way.

## Findings

| source | as written | input that shows it | evidently intended | confidence | as-written member | corrected member |
|---|---|---|---|---|---|---|
| App.js:14-55 | the input state starts undefined (`useState()`), and `handleAddTask` calls `task.trim()` | press add on a fresh main screen before typing anything: `undefined.trim()` throws a TypeError | pressing add with nothing typed is ignored, like a blank input | high (reading of the code; not executed) | `TaskState.AddBeforeTypingThrows` | `TaskState.AddBeforeTypingIsNoOp` |
