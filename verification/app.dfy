/**
 * The todo controller: its state and its handlers. Each handler that calls
 * the server is split into a `Begin` step, which runs when the user acts, and
 * a `Complete` step, which runs when the call settles and receives its outcome.
 */
module AppController {
  import opened Types
  import opened Messages
  import opened Text
  import opened TodoList
  import opened Processing

  /** A snapshot of every field of the controller, so that contracts can say what a step changes. */
  datatype AppState = AppState(
    todos: seq<Todo>,
    filterQuery: SelectedFilter,
    errorMessage: ErrorMessages,
    query: string,
    processingTodoIds: seq<TodoState>,
    tempTodo: Nullable<Todo>,
    editingTodoId: Nullable<int>,
    errorTimeoutId: Nullable<nat>,
    scheduledTimers: set<nat>,
    nextTimerId: nat,
    nextToken: nat)

  /**
   * The state after `handleError(message)`: the message is shown and the only
   * pending auto-clear timer is a newly scheduled one, which the ref remembers.
   */
  function AfterHandleError(s: AppState, message: ErrorMessages): AppState {
    s.(errorMessage := message,
       errorTimeoutId := Present(s.nextTimerId),
       scheduledTimers := {s.nextTimerId},
       nextTimerId := s.nextTimerId + 1)
  }

  /** The state after `clearError()`: no message and no pending timer; the ref keeps its old id. */
  function AfterClearError(s: AppState): AppState {
    s.(errorMessage := None, scheduledTimers := {})
  }

  /** What `handleEditTodo` did when it was called. */
  datatype EditRequest =
    | DeleteInstead                            // empty title: the todo is being deleted
    | NoChange                                 // same title: edit mode left, no call
    | Update(editingAtCall: Nullable<int>)     // a call was made; `editingTodoId` as the handler saw it

  class App {
    var todos: seq<Todo>
    var filterQuery: SelectedFilter
    var errorMessage: ErrorMessages
    var query: string
    var processingTodoIds: seq<TodoState>
    var tempTodo: Nullable<Todo>
    var editingTodoId: Nullable<int>
    /** The `errorTimeoutId` ref. */
    var errorTimeoutId: Nullable<nat>

    // The environment the controller runs in:
    /** The auto-clear timeouts the browser still holds (scheduled, neither fired nor cleared). */
    var scheduledTimers: set<nat>
    /** The id the browser hands out for the next timeout; timeout ids are positive. */
    var nextTimerId: nat
    /** The identity of the next `{id, state}` object the controller creates. */
    var nextToken: nat

    /**
     * Every processing entry is an object created earlier, and at most one
     * auto-clear timeout is pending: the one the ref holds.
     */
    ghost predicate Valid()
      reads this
    {
      && (forall e :: e in processingTodoIds ==> e.token < nextToken)
      && (forall t :: t in scheduledTimers ==> errorTimeoutId == Present(t))
      && (errorTimeoutId.Present? ==> 0 < errorTimeoutId.value < nextTimerId)
      && 0 < nextTimerId
    }

    function State(): AppState
      reads this
    {
      AppState(todos, filterQuery, errorMessage, query, processingTodoIds, tempTodo, editingTodoId,
               errorTimeoutId, scheduledTimers, nextTimerId, nextToken)
    }

    /** The state the component starts in, before the initial load settles. */
    constructor ()
      ensures Valid()
      ensures todos == [] && filterQuery == All && errorMessage == None && query == ""
      ensures processingTodoIds == [] && tempTodo == Null && editingTodoId == Null
      ensures errorTimeoutId == Null && scheduledTimers == {}
    {
      todos, filterQuery, errorMessage, query := [], All, None, "";
      processingTodoIds, tempTodo, editingTodoId := [], Null, Null;
      errorTimeoutId, scheduledTimers, nextTimerId, nextToken := Null, {}, 1, 0;
    }

    // ---- Derived values ----

    function VisibleTodos(): seq<Todo> reads this { PrepareTodos(todos, filterQuery) }
    function RemainingTodos(): nat reads this { CountRemaining(todos) }
    predicate IsLoadingAddingTodo() reads this { tempTodo != Null }
    predicate IsLoadingSomething() reads this { |processingTodoIds| > 0 }
    predicate AreNoneCompleted() reads this { EveryCompleted(todos, false) }
    predicate AreAllCompleted() reads this { EveryCompleted(todos, true) }
    predicate IsEditing() reads this { editingTodoId != Null }
    predicate EmptyTodos() reads this { |todos| == 0 }
    /** Disables the new-todo field. */
    predicate IsProcessing() reads this { IsLoadingAddingTodo() || IsLoadingSomething() || IsEditing() }

    // ---- Plain setters ----

    method HandleQueryChange(newQuery: string)
      requires Valid()
      modifies this
      ensures Valid() && State() == old(State()).(query := newQuery)
    {
      query := newQuery;
    }

    method HandleSelect(newFilterQuery: SelectedFilter)
      requires Valid()
      modifies this
      ensures Valid() && State() == old(State()).(filterQuery := newFilterQuery)
    {
      filterQuery := newFilterQuery;
    }

    /** A double click on a todo's title puts that todo in edit mode. */
    method SetEditingTodoId(id: Nullable<int>)
      requires Valid()
      modifies this
      ensures Valid() && State() == old(State()).(editingTodoId := id)
    {
      editingTodoId := id;
    }

    /** The new-todo field is trimmed. */
    method TrimQuery()
      requires Valid()
      modifies this
      ensures Valid() && State() == old(State()).(query := Trim(old(query)))
    {
      query := Trim(query);
    }

    /** `setTodos` with a new list. */
    method SetTodos(value: seq<Todo>)
      requires Valid()
      modifies this
      ensures Valid() && State() == old(State()).(todos := value)
    {
      todos := value;
    }

    /** `setProcessingTodoIds` with a list of objects created earlier. */
    method SetProcessingTodoIds(value: seq<TodoState>)
      requires Valid()
      requires forall e :: e in value ==> e.token < nextToken
      modifies this
      ensures Valid() && State() == old(State()).(processingTodoIds := value)
    {
      processingTodoIds := value;
    }

    /** The key-up listener: Escape leaves edit mode; any other key does nothing. */
    method HandleEscape(key: string)
      requires Valid()
      modifies this
      ensures Valid()
      ensures State() == if key == "Escape" then old(State()).(editingTodoId := Null) else old(State())
    {
      if key == "Escape" {
        editingTodoId := Null;
      }
    }

    // ---- The notification ----

    /** Shows `message`, cancels the pending auto-clear and schedules a new one. */
    method HandleError(message: ErrorMessages)
      requires Valid()
      modifies this
      ensures Valid() && State() == AfterHandleError(old(State()), message)
    {
      if errorTimeoutId.Present? && errorTimeoutId.value != 0 {
        scheduledTimers := scheduledTimers - {errorTimeoutId.value};
      }
      errorMessage := message;
      var timer := nextTimerId;
      nextTimerId := nextTimerId + 1;
      scheduledTimers := scheduledTimers + {timer};
      errorTimeoutId := Present(timer);
    }

    /** Hides the message and cancels the pending auto-clear. */
    method ClearError()
      requires Valid()
      modifies this
      ensures Valid() && State() == AfterClearError(old(State()))
    {
      if errorTimeoutId.Present? && errorTimeoutId.value != 0 {
        scheduledTimers := scheduledTimers - {errorTimeoutId.value};
      }
      errorMessage := None;
    }

    /** The dismiss button: hides the message but leaves the pending auto-clear scheduled. */
    method HandleDeleteError()
      requires Valid()
      modifies this
      ensures Valid() && State() == old(State()).(errorMessage := None)
    {
      errorMessage := None;
    }

    /**
     * A scheduled auto-clear fires. Only the most recently scheduled one can:
     * it is the one the ref holds.
     */
    method ErrorTimeoutElapsed(timer: nat)
      requires Valid()
      requires timer in scheduledTimers
      modifies this
      ensures old(errorTimeoutId) == Present(timer)
      ensures Valid() && State() == old(State()).(errorMessage := None, scheduledTimers := {})
    {
      scheduledTimers := scheduledTimers - {timer};
      errorMessage := None;
    }

    // ---- Initial load ----

    /** The initial `getTodos()` settles: its list replaces the empty one, or the load error is shown. */
    method CompleteInitialLoad(response: Outcome<seq<Todo>>)
      requires Valid()
      modifies this
      ensures Valid()
      ensures State() == if response.Fulfilled? then old(State()).(todos := response.value)
                         else AfterHandleError(old(State()), ErrorTodoLoad)
    {
      if response.Fulfilled? {
        todos := response.value;
      } else {
        HandleError(ErrorTodoLoad);
      }
    }

    // ---- Create ----

    /**
     * `handleNewTodo(title)`: clears the error and trims the field; an empty
     * title shows the empty-title error and makes no call; otherwise `addTodo`
     * is called and the placeholder (id 0, not completed, this user) is shown.
     */
    method BeginNewTodo(title: string) returns (called: bool)
      requires Valid() && IsTrimmed(title)
      modifies this
      ensures Valid()
      ensures called <==> title != ""
      ensures called ==> IsProcessing()
      ensures var cleared := AfterClearError(old(State())).(query := Trim(old(query)));
              State() == if called then cleared.(tempTodo := Present(Todo(0, USER_ID, title, false)))
                         else AfterHandleError(cleared, ErrorEmptyTitle)
    {
      ghost var cleared := AfterClearError(State()).(query := Trim(query));
      ClearError();
      TrimQuery();
      assert State() == cleared;
      if title == "" {
        HandleError(ErrorEmptyTitle);
        return false;
      }
      called := true;
      tempTodo := Present(Todo(0, USER_ID, title, false));
    }

    /** `addTodo` settles: the server's todo is appended and the field emptied, or the add error is shown; the placeholder goes either way. */
    method CompleteNewTodo(response: Outcome<Todo>)
      requires Valid()
      modifies this
      ensures Valid()
      ensures var settled := if response.Fulfilled? then old(State()).(todos := old(todos) + [response.value], query := "")
                             else AfterHandleError(old(State()), ErrorToAddTodo);
              State() == settled.(tempTodo := Null)
    {
      if response.Fulfilled? {
        todos := todos + [response.value];
        query := "";
      } else {
        HandleError(ErrorToAddTodo);
      }
      tempTodo := Null;
    }

    // ---- Delete ----

    /** Appends one fresh `{id, 'loading'}` entry. */
    method AddProcessing(id: int, state: LoadState)
      requires Valid()
      modifies this
      ensures Valid()
      ensures State() == old(State()).(processingTodoIds := old(processingTodoIds) + [TodoState(id, state, old(nextToken))],
                                       nextToken := old(nextToken) + 1)
    {
      processingTodoIds := processingTodoIds + [TodoState(id, state, nextToken)];
      nextToken := nextToken + 1;
    }

    /** `handleTodoDelete(id)`: clears the error, marks the id loading and calls `deleteTodo`. */
    method BeginTodoDelete(id: int)
      requires Valid()
      modifies this
      ensures Valid() && IsProcessing()
      ensures State() == AfterClearError(old(State())).(
                processingTodoIds := old(processingTodoIds) + [TodoState(id, Loading, old(nextToken))],
                nextToken := old(nextToken) + 1)
    {
      ClearError();
      AddProcessing(id, Loading);
    }

    /**
     * `deleteTodo` settles: every todo with the id goes, or the delete error is
     * shown; then the first entry for the id leaves `processingTodoIds`.
     */
    method CompleteTodoDelete(id: int, response: Outcome<()>)
      requires Valid()
      modifies this
      ensures Valid()
      ensures var settled := if response.Fulfilled? then old(State()).(todos := RemoveIds(old(todos), [id]))
                             else AfterHandleError(old(State()), ErrorToDeleteTodo);
              State() == settled.(processingTodoIds := RemoveFirstWithId(old(processingTodoIds), id))
    {
      if response.Fulfilled? {
        todos := RemoveIds(todos, [id]);
      } else {
        HandleError(ErrorToDeleteTodo);
      }
      processingTodoIds := RemoveFirstWithId(processingTodoIds, id);
    }

    /**
     * `handleAllCompletedDelete()`: one fresh loading entry per completed todo,
     * in list order, then the error is cleared and one `deleteTodo` per entry is called.
     */
    method BeginAllCompletedDelete() returns (ids: seq<TodoState>)
      requires Valid()
      modifies this
      ensures Valid()
      ensures ids == LoadingEntries(WithCompleted(old(todos), true), Loading, old(nextToken))
      ensures forall e :: e in ids ==> e !in old(processingTodoIds)
      ensures State() == AfterClearError(old(State())).(
                processingTodoIds := old(processingTodoIds) + ids,
                nextToken := old(nextToken) + |ids|)
    {
      ids := LoadingEntries(WithCompleted(todos, true), Loading, nextToken);
      processingTodoIds := processingTodoIds + ids;
      nextToken := nextToken + |ids|;
      ClearError();
    }

    /**
     * All the batch's calls have settled: the todos whose id some call deleted
     * go, one delete error is shown if any call failed, and exactly the batch's
     * own entries leave `processingTodoIds`.
     */
    method CompleteAllCompletedDelete(ids: seq<TodoState>, responses: seq<Outcome<()>>)
      requires Valid()
      requires |responses| == |ids|
      modifies this
      ensures Valid()
      ensures var removed := old(State()).(todos := RemoveIds(old(todos), SettledIds(ids, responses, true)));
              var settled := if SettledIds(ids, responses, false) != [] then AfterHandleError(removed, ErrorToDeleteTodo)
                             else removed;
              State() == settled.(processingTodoIds := RemoveEntries(old(processingTodoIds), ids))
    {
      var remaining := RemoveEntries(processingTodoIds, ids);
      var fulfilled, rejected := SplitDeleteResponses(ids, responses);
      if |fulfilled| > 0 {
        SetTodos(RemoveIds(todos, fulfilled));
      } else {
        RemoveNoIds(todos);
      }
      if |rejected| > 0 {
        HandleError(ErrorToDeleteTodo);
      }
      SetProcessingTodoIds(remaining);
    }

    // ---- Toggle ----

    /**
     * `handleTodoCompletedToggle(id)`: clears the error; for an absent id
     * nothing more; otherwise marks the id loading and calls `updateTodo` with
     * the negated flag of the first todo with that id.
     */
    method BeginTodoCompletedToggle(id: int) returns (newCompleted: Nullable<bool>)
      requires Valid()
      modifies this
      ensures Valid()
      ensures var found := FindById(old(todos), id);
              newCompleted == if found.Present? then Present(!found.value.completed) else Null
      ensures State() == if newCompleted.Null? then AfterClearError(old(State()))
                         else AfterClearError(old(State())).(
                           processingTodoIds := old(processingTodoIds) + [TodoState(id, Loading, old(nextToken))],
                           nextToken := old(nextToken) + 1)
    {
      ClearError();
      var updatingTodo := FindById(todos, id);
      if updatingTodo.Null? {
        return Null;
      }
      newCompleted := Present(!updatingTodo.value.completed);
      AddProcessing(id, Loading);
    }

    /**
     * `updateTodo` settles: the server's todo replaces every todo with the
     * reply's id, or the update error is shown; then every entry for the id goes.
     */
    method CompleteTodoCompletedToggle(id: int, response: Outcome<Todo>)
      requires Valid()
      modifies this
      ensures Valid()
      ensures var settled := if response.Fulfilled? then old(State()).(todos := ReplaceById(old(todos), response.value))
                             else AfterHandleError(old(State()), ErrorToUpdateTodo);
              State() == settled.(processingTodoIds := RemoveAllWithId(old(processingTodoIds), id))
    {
      if response.Fulfilled? {
        todos := ReplaceById(todos, response.value);
      } else {
        HandleError(ErrorToUpdateTodo);
      }
      processingTodoIds := RemoveAllWithId(processingTodoIds, id);
    }

    /**
     * `handleTodoAllCompletedToggle(areAllCompleted)`: selects the todos whose
     * flag equals `areAllCompleted`, one fresh loading entry each, and asks the
     * server to set their flag to `!areAllCompleted`.
     */
    method BeginTodoAllCompletedToggle(areAllCompleted: bool) returns (ids: seq<TodoState>, toggleTo: bool)
      requires Valid()
      modifies this
      ensures Valid()
      ensures toggleTo == !areAllCompleted
      ensures ids == LoadingEntries(WithCompleted(old(todos), areAllCompleted), Loading, old(nextToken))
      ensures forall e :: e in ids ==> e !in old(processingTodoIds)
      ensures State() == AfterClearError(old(State())).(
                processingTodoIds := old(processingTodoIds) + ids,
                nextToken := old(nextToken) + |ids|)
    {
      ids := LoadingEntries(WithCompleted(todos, areAllCompleted), Loading, nextToken);
      toggleTo := !areAllCompleted;
      ClearError();
      processingTodoIds := processingTodoIds + ids;
      nextToken := nextToken + |ids|;
    }

    /**
     * All the batch's calls have settled: one update error is shown if any call
     * failed, each todo whose id a reply carries becomes that reply, and exactly
     * the batch's own entries leave `processingTodoIds`.
     */
    method CompleteTodoAllCompletedToggle(ids: seq<TodoState>, responses: seq<Outcome<Todo>>)
      requires Valid()
      requires |responses| == |ids|
      modifies this
      ensures Valid()
      ensures var notified := if SettledIds(ids, responses, false) != [] then AfterHandleError(old(State()), ErrorToUpdateTodo)
                              else old(State());
              State() == notified.(todos := ReplaceFromResponses(old(todos), FulfilledValues(responses)),
                                   processingTodoIds := RemoveEntries(old(processingTodoIds), ids))
    {
      var remaining := RemoveEntries(processingTodoIds, ids);
      var fulfilled, rejected := SplitUpdateResponses(ids, responses);
      if |rejected| > 0 {
        HandleError(ErrorToUpdateTodo);
      }
      if |fulfilled| > 0 {
        SetTodos(ReplaceFromResponses(todos, fulfilled));
      } else {
        NoResponsesChangeNothing(todos);
      }
      SetProcessingTodoIds(remaining);
    }

    // ---- Edit ----

    /**
     * `handleEditTodo(title, id)`: an empty title deletes the todo; a title
     * equal to the first todo with that id only leaves edit mode; any other
     * title clears the error, marks the id 'editloading' and calls `updateTodo`.
     */
    method BeginEditTodo(title: string, id: int) returns (request: EditRequest)
      requires Valid() && IsTrimmed(title)
      requires title == "" || exists i :: 0 <= i < |todos| && todos[i].id == id
      modifies this
      ensures Valid()
      ensures title == "" ==>
                request == DeleteInstead &&
                State() == AfterClearError(old(State())).(
                  processingTodoIds := old(processingTodoIds) + [TodoState(id, Loading, old(nextToken))],
                  nextToken := old(nextToken) + 1)
      ensures title != "" && FindById(old(todos), id).value.title == title ==>
                request == NoChange && State() == old(State()).(editingTodoId := Null)
      ensures title != "" && FindById(old(todos), id).value.title != title ==>
                request == Update(old(editingTodoId)) &&
                State() == AfterClearError(old(State())).(
                  processingTodoIds := old(processingTodoIds) + [TodoState(id, EditLoading, old(nextToken))],
                  nextToken := old(nextToken) + 1)
    {
      if title == "" {
        BeginTodoDelete(id);
        return DeleteInstead;
      }
      var pastTodo := FindById(todos, id).value;
      if pastTodo.title == title {
        editingTodoId := Null;
        return NoChange;
      }
      request := Update(editingTodoId);
      ClearError();
      AddProcessing(id, EditLoading);
    }

    /**
     * `updateTodo` settles: on success edit mode is left if the handler saw
     * this id being edited, and the server's todo replaces every todo with the
     * reply's id; on failure the update error is shown; then the first entry
     * for the id leaves `processingTodoIds`.
     */
    method CompleteEditTodo(id: int, editingAtCall: Nullable<int>, response: Outcome<Todo>)
      requires Valid()
      modifies this
      ensures Valid()
      ensures var settled :=
                if response.Fulfilled? then
                  old(State()).(editingTodoId := if editingAtCall == Present(id) then Null else old(editingTodoId),
                                todos := ReplaceById(old(todos), response.value))
                else AfterHandleError(old(State()), ErrorToUpdateTodo);
              State() == settled.(processingTodoIds := RemoveFirstWithId(old(processingTodoIds), id))
    {
      if response.Fulfilled? {
        if editingAtCall == Present(id) {
          editingTodoId := Null;
        }
        todos := ReplaceById(todos, response.value);
      } else {
        HandleError(ErrorToUpdateTodo);
      }
      processingTodoIds := RemoveFirstWithId(processingTodoIds, id);
    }
  }
}
