/** The value types the todo controller works with. */
module Types {

  /** A TypeScript `T | null`. */
  datatype Nullable<T> = Null | Present(value: T)

  /** How one remote call settled: fulfilled with the server's reply, or rejected. */
  datatype Outcome<T> = Fulfilled(value: T) | Rejected

  /** One item of the list, as the server stores it. Id 0 is the unsaved placeholder. */
  datatype Todo = Todo(id: int, userId: int, title: string, completed: bool)

  /** The footer's filter. */
  datatype SelectedFilter = All | Active | Completed

  /** The kind of an in-flight operation on one item: `'loading'` or `'editloading'`. */
  datatype LoadState = Loading | EditLoading

  /**
   * One entry of `processingTodoIds`. Every entry the controller creates is a
   * fresh object; `token` stands for that object's identity, so two entries
   * are the same object exactly when they are equal.
   */
  datatype TodoState = TodoState(id: int, state: LoadState, token: nat)

  /** The owner every new todo is created for. */
  const USER_ID: int := 3380
}

/** The notification texts. */
module Messages {

  datatype ErrorMessages =
    | None
    | ErrorTodoLoad
    | ErrorEmptyTitle
    | ErrorToAddTodo
    | ErrorToDeleteTodo
    | ErrorToUpdateTodo

  /** The text shown for a message; only `None` shows nothing. */
  function MessageText(m: ErrorMessages): (text: string)
    ensures text == "" <==> m == None
  {
    match m
    case None => ""
    case ErrorTodoLoad => "Unable to load todos"
    case ErrorEmptyTitle => "Title should not be empty"
    case ErrorToAddTodo => "Unable to add a todo"
    case ErrorToDeleteTodo => "Unable to delete a todo"
    case ErrorToUpdateTodo => "Unable to update a todo"
  }
}
