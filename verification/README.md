# Todo controller model

A Dafny model of the controller of a single-page todo application. The controller
keeps the list of todos in step with a remote store. It also tracks which todos
have a call in flight, shows a placeholder while a todo is being created, and
shows an error notification that clears itself after a while.

The model is built from these modules:

- `Types`: the values. `Todo`, the footer filter `SelectedFilter`, the processing
  entry `TodoState` (`'loading'` or `'editloading'`), `Nullable` for TypeScript's
  `T | null`, and `Outcome` for a remote call that was fulfilled with the server's
  reply or was rejected. `USER_ID` is also here.
- `Messages`: the `ErrorMessages` enum and its texts.
- `Seqs`: the JavaScript array operations the controller relies on. These are
  `filter` (with its order and multiplicity properties) and `slice` (with
  negative indices).
- `Text`: ECMAScript `trim`. The input components trim every title before they
  call the controller. The model takes that as a precondition (`IsTrimmed`).
- `TodoList`: the pure functions over the list. These are `prepareTodos`, the
  derived counts and flags, `find`, and the list updates the handlers apply:
  replace by id, remove by ids, and the bulk toggle's map of replies.
- `Processing`: the list of in-flight entries. It holds the `findIndex`/`slice`
  cleanup, the filter cleanups, the fresh entries a bulk handler creates, and
  the two `reduce` loops that split bulk replies into fulfilled and rejected.
- `AppController`: the class `App`. Its fields are the component's state and the
  `errorTimeoutId` ref. Every handler that calls the server is split in two. A
  `Begin…` method runs when the user acts. A `Complete…` method runs when the
  call settles and receives the outcome. A bulk `Complete…` receives one outcome
  per entry of its batch, as `Promise.allSettled` reports them. The values the
  component derives for rendering (src/App.tsx:398-409) are functions of the
  class: `VisibleTodos`, `RemainingTodos`, `AreAllCompleted`, `AreNoneCompleted`,
  `IsProcessing` and the other flags. The ones computed from the list are
  defined through the `TodoList` functions whose contracts and lemmas state
  their properties. The others test a field directly.

Some environment state is modelled explicitly as fields:

- `scheduledTimers`: the timeouts the browser still holds.
- `nextTimerId`: the browser's next timeout id. Ids are positive.
- `nextToken`: the identity of the next `{id, state}` object.

Every processing entry carries its identity as `token`. So the bulk cleanup's
membership test, which compares objects by reference, becomes equality of values.
The class invariant `Valid()` says two things. First, every entry was created
earlier. Second, at most one auto-clear timeout is pending, and it is the one
the ref holds. Each method's contract gives the whole new state as an update of
`old(State())`. `AfterHandleError` and `AfterClearError` name the two notification
steps that the handlers share.

The code behaves as follows where a reader might expect otherwise, and the model follows it:

- `handleDeleteError` does not cancel the pending timeout.
- `handleEditTodo` with an empty title deletes the todo and shows no error.
- Toggling an absent id still clears the error.
- Leaving edit mode with an unchanged title does not clear the error.
- Delete and edit remove only the first processing entry for the id, through
  `findIndex` and `slice`. When no entry has that id, `findIndex` gives -1. The
  result is then every entry but the last, followed by all of them again.
  `RemoveFirstWithId` states this case exactly. It can only arise when two
  operations on one id overlap.

## Model

| member | source | states |
|---|---|---|
| `Messages.MessageText` | src/types/ErrorMessages.ts:1-8 | Only `None` has the empty text; every other message has its fixed text. |
| `Seqs.Filter` | src/App.tsx:24-29 | `filter` keeps every element that passes, as often as it occurs, and nothing else, in the input's order. |
| `Seqs.FilterConcat` | src/App.tsx:306-308 | Filtering a concatenation filters each part; the bulk cleanup uses this. |
| `Seqs.Slice` | src/App.tsx:145 | `slice` agrees with plain slicing on in-range indices. `slice(0, -k)` drops the last k elements. Every element of the result comes from the input. |
| `Text.Trim` | src/components/Header/Header.tsx:31 | `trim` removes exactly a white-space prefix and a white-space suffix. The result neither starts nor ends with white space. |
| `Text.TrimmedIff` | src/components/TodoItem/TodoItem.tsx:43 | A title is already trimmed exactly when it is empty or starts and ends with a visible character. |
| `Text.TrimIdempotent` | src/components/Header/Header.tsx:31 | Trimming a trimmed title changes nothing. |
| `Text.WhiteSpaceTrimsToEmpty` | src/components/Header/Header.tsx:31 | A title of white space only reaches the controller as the empty title. |
| `TodoList.WithCompleted` | src/App.tsx:153-154 | The todos with the given flag: all of them, only them, in list order. |
| `TodoList.PrepareTodos` | src/App.tsx:20-35 | All returns the list itself. Active and Completed return exactly the todos they show, each as often as in the list, in list order. |
| `TodoList.ActiveCompletedPartition` | src/App.tsx:20-35 | Active and Completed together are the whole list, with no todo in both. Their lengths add up to the list's. |
| `TodoList.CountRemaining` | src/App.tsx:399 | `remainingTodos` equals the number of uncompleted todos, the length of the Active view. |
| `TodoList.EveryIffOthersEmpty` | src/App.tsx:403-404 | Every todo has a given flag exactly when filtering for the other flag leaves nothing. |
| `TodoList.CompletionFlags` | src/App.tsx:403-404 | `areAllCompleted` holds exactly when nothing remains. `areNoneCompleted` holds exactly when the Completed view is empty. On an empty list both hold. |
| `TodoList.FindById` | src/App.tsx:199 | `find` returns null exactly when no todo has the id. Otherwise it returns the first todo with the id. |
| `TodoList.ReplaceById` | src/App.tsx:224-228 | Each todo with the reply's id becomes the reply. The others stay. Length, order and ids do not change. |
| `TodoList.RemoveIds` | src/App.tsx:134-136 | Exactly the todos with the given ids go. The rest stay in order with their multiplicity. |
| `TodoList.ResponsesById` | src/App.tsx:293-295 | The map has exactly the replies' ids as keys. Each key maps to a reply with that id, the last one when several share it. |
| `TodoList.ReplaceFromResponses` | src/App.tsx:292-302 | A todo whose id a reply carries becomes the last reply with that id. Every other todo stays. Length, order and ids do not change. |
| `TodoList.SingleResponseIsReplaceById` | src/App.tsx:292-302 | A bulk reply set with one reply updates the list as the single toggle does. |
| `TodoList.ToggleTwiceRestores` | src/App.tsx:195-237 | Say ids are unique and the server applies each requested flag. Then toggling a todo twice gives back the original list. |
| `Processing.FindIndexById` | src/App.tsx:143 | `findIndex` gives -1 exactly when no entry has the id. Otherwise it gives the first index with the id. |
| `Processing.RemoveFirstWithId` | src/App.tsx:142-146 | When some entry has the id, the first such entry goes and the others stay in order. When none has it, the result is all entries but the last, followed by all of them. |
| `Processing.RemoveAllWithId` | src/App.tsx:234-236 | Every entry with the id goes. Every other entry stays, as many times as it occurs and in order. |
| `Processing.RemoveEntries` | src/App.tsx:191 | Exactly the batch's own entry objects go. Every other entry stays, as many times as it occurs and in order. |
| `Processing.LoadingEntries` | src/App.tsx:153-158 | One entry per selected todo, with its id and state, in list order. The k-th entry has identity `base + k`, so each object is distinct and newer than any before `base`. |
| `Processing.RemoveBatchRestores` | src/App.tsx:160 | Append a batch of fresh entries, then remove it by identity. The result is the entries that were there before. |
| `Processing.SettledIds` | src/App.tsx:170-180 | The ids whose call settled the given way: exactly those of the batch. |
| `Processing.SettledIdsPartition` | src/App.tsx:170-180 | Every call of a batch is counted once, as fulfilled or as rejected. |
| `Processing.FulfilledValues` | src/App.tsx:264-285 | The replies of exactly the fulfilled calls, at most one per call. |
| `Processing.LastFulfilledIsLastForId` | src/App.tsx:264-285 | The `push` loop keeps batch order: the reply of the last fulfilled call with a given id is the last reply with that id in the fulfilled list. |
| `Processing.LastFulfilledReplyWins` | src/App.tsx:291-300 | In the bulk toggle, a todo becomes the reply of the last fulfilled call carrying its id, whatever earlier or rejected calls said. |
| `Processing.SplitDeleteResponses` | src/App.tsx:170-180 | The `reduce` loop pushes each id onto its status's list. The lists are the fulfilled and rejected ids in batch order. |
| `Processing.SplitUpdateResponses` | src/App.tsx:264-285 | The `reduce` loop collects the fulfilled replies and the rejected ids in batch order. |
| `AppController.App.constructor` | src/App.tsx:40-52 | The initial state: no todos, All, no message, empty field, nothing processing, no placeholder, no edit target, no timer. |
| `AppController.App.HandleQueryChange` | src/App.tsx:54-56 | Only the field's text changes. |
| `AppController.App.HandleSelect` | src/App.tsx:58-60 | Only the filter changes. |
| `AppController.App.SetEditingTodoId` | src/App.tsx:434 | Only the edit target changes. |
| `AppController.App.HandleEscape` | src/App.tsx:385-389 | Escape clears the edit target. Any other key changes nothing. |
| `AppController.App.HandleError` | src/App.tsx:62-72 | The message is shown. The pending auto-clear is cancelled, and the only pending timeout is the new one, which the ref holds. |
| `AppController.App.ClearError` | src/App.tsx:74-80 | No message is shown and no timeout is pending. The ref keeps its old id. |
| `AppController.App.HandleDeleteError` | src/App.tsx:370-372 | No message is shown. The pending timeout stays scheduled. |
| `AppController.App.ErrorTimeoutElapsed` | src/App.tsx:69-71 | A timeout that fires is the one the ref holds, so only the latest error's timer clears the message. |
| `AppController.App.CompleteInitialLoad` | src/App.tsx:379-383 | On success the server's list replaces the list. On failure the load error is shown. |
| `AppController.App.BeginNewTodo` | src/App.tsx:82-96 | The error is cleared and the field trimmed. An empty title shows the empty-title error, makes no call and sets no placeholder. Otherwise a call is made and the placeholder is id 0, the title, not completed, `USER_ID`. |
| `AppController.App.CompleteNewTodo` | src/App.tsx:97-119 | Success appends the server's todo and empties the field. Failure shows the add error and leaves the list. The placeholder goes either way. |
| `AppController.App.AddProcessing` | src/App.tsx:125-131 | Exactly one fresh entry for the id is appended. |
| `AppController.App.BeginTodoDelete` | src/App.tsx:122-132 | The error is cleared and one fresh loading entry is appended. |
| `AppController.App.CompleteTodoDelete` | src/App.tsx:133-147 | Success removes every todo with the id. Failure shows the delete error and leaves the list. Then the first entry for the id is removed. |
| `AppController.App.BeginAllCompletedDelete` | src/App.tsx:152-163 | The batch is one fresh loading entry per completed todo, in list order, appended after the existing entries. The error is cleared. |
| `AppController.App.CompleteAllCompletedDelete` | src/App.tsx:164-192 | Only todos whose id some call deleted go. One delete error is shown when any call failed. Exactly the batch's own entries are removed. |
| `AppController.App.BeginTodoCompletedToggle` | src/App.tsx:195-215 | The error is cleared. An absent id changes nothing more. Otherwise the negated flag of the first todo with the id is sent and one loading entry is appended. |
| `AppController.App.CompleteTodoCompletedToggle` | src/App.tsx:216-237 | Success replaces the todos with the reply's id by the reply. Failure shows the update error. Then every entry for the id is removed. |
| `AppController.App.BeginTodoAllCompletedToggle` | src/App.tsx:242-257 | The batch is exactly the todos whose flag equals `areAllCompleted`, each with a fresh entry. The flag sent is `!areAllCompleted`. |
| `AppController.App.CompleteTodoAllCompletedToggle` | src/App.tsx:258-309 | One update error is shown when any call failed. Each todo whose id a reply carries becomes that reply, and the others stay. Exactly the batch's entries are removed. |
| `AppController.App.BeginEditTodo` | src/App.tsx:312-337 | An empty title begins a delete. A title equal to the current one only clears the edit target. Any other title clears the error, appends an 'editloading' entry, and passes on the edit target as it was at the call. |
| `AppController.App.CompleteEditTodo` | src/App.tsx:338-365 | Success replaces the todos with the reply's id. It clears the edit target only if that target, as seen at the call, was this id. Failure shows the update error. Then the first entry for the id is removed. |

## Left out

- Rendering: the JSX, `classnames`, focus and blur handling, CSS transitions and
  `React.memo`. The header and item components are not part of this model
  beyond the trimming they apply, which is a precondition on create and edit.
- The HTTP client: every remote call is the outcome passed to a `Complete…`
  method. A fulfilled reply is any `Todo`, so the server is trusted fully.
  src/utils/fetchClient.ts is not part of this model.
- Real time and the DOM. The 3000 ms delay is not modelled: a timeout fires
  when `ErrorTimeoutElapsed` is called, and only while it is scheduled. The
  registration and removal of the key-up listener on mount and unmount is not
  modelled. The key-up event is `HandleEscape`.
- Interleaving: the order in which overlapping calls settle is the order in
  which the caller invokes `Complete…` methods. Nothing is claimed about two
  operations racing on one id.
- React's rendering: state updates apply at once. Values a handler captures
  when called are out-parameters of its `Begin…` step. These are the edit
  target for edit, and the flag and batch for toggle and the bulk handlers.
- Numbers: JavaScript numbers are modelled as unbounded integers. Strings are
  sequences of Unicode characters rather than UTF-16 code units, which does not
  affect trimming or title comparison.
- `ErrorTimeoutElapsed`: assumes the browser fires only timeouts still scheduled.
- `BeginEditTodo`: requires a todo with the id when the title is not empty. In the
  source, reading the title of the missing todo (src/App.tsx:320-322) throws a
  `TypeError` before any state changes. The model does not cover that crash.
