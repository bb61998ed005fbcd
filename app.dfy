/**
 * The App component: its two pieces of state (`todos`, the local mirror of
 * the `todos` table, and `newTask`, the text of the input field) and its four
 * handlers. Each remote call is an input: the response the backing store
 * gives, either an error or the returned data. Each handler returns the
 * request it issues, so that what is sent is part of its contract.
 */
module TodoApp {
  import opened JsString
  import opened TodoList

  datatype Option<T> = None | Some(value: T)

  /** What the backing store answers: `{ data, error }` with exactly one set. */
  datatype Response<T> = Error(message: string) | Ok(data: T)

  /** The four queries the component issues against one table. */
  datatype Request =
    | Select(table: string, orderBy: string, ascending: bool)
    | Insert(table: string, task: string, isCompleted: bool)
    | Update(table: string, id: int, isCompleted: bool)
    | Delete(table: string, id: int)

  /** The one table every query names. */
  const Table: string := "todos"

  /** `data || []`: a missing payload reads as no rows. */
  function FetchedRows(data: Option<seq<Todo>>): (r: seq<Todo>)
    ensures data.Some? ==> r == data.value
    ensures data.None? ==> r == []
  {
    match data
    case Some(rows) => rows
    case None => []
  }

  /**
   * The insert the add handler issues for the current input: none when the
   * input is all white space, otherwise a row with the input exactly as
   * typed (not trimmed) and `is_completed = false`.
   */
  function InsertRequest(newTask: string): (r: Option<Request>)
    ensures r.None? <==> AllWhiteSpace(newTask)
    ensures r.Some? ==>
      r.value.Insert? && r.value.table == Table && r.value.task == newTask && !r.value.isCompleted
  {
    if IsBlank(newTask) then None else Some(Insert(Table, newTask, false))
  }

  class App {
    var todos: seq<Todo>
    var newTask: string

    /** `useState<Todo[]>([])` and `useState('')`. */
    constructor ()
      ensures todos == [] && newTask == ""
    {
      todos := [];
      newTask := "";
    }

    /** The input field's change handler: `setNewTask(e.target.value)`. */
    method EditNewTask(text: string)
      modifies this
      ensures newTask == text && todos == old(todos)
    {
      newTask := text;
    }

    /** fetchTodos: on success the mirror becomes the returned rows (none for
        a missing payload); on error nothing changes. */
    method FetchTodos(response: Response<Option<seq<Todo>>>) returns (request: Request)
      modifies this
      ensures request == Select(Table, "id", true)
      ensures newTask == old(newTask)
      ensures response.Error? ==> todos == old(todos)
      ensures response.Ok? ==> todos == FetchedRows(response.data)
    {
      request := Select(Table, "id", true);
      match response
      case Error(_) =>
      case Ok(data) =>
        todos := FetchedRows(data);
    }

    /**
     * addTodo: a blank input issues nothing and changes nothing. Otherwise
     * the insert is issued; on error nothing changes (the input is kept), on
     * success the first returned row is appended and the input is cleared.
     */
    method AddTodo(response: Response<seq<Todo>>) returns (request: Option<Request>)
      requires !IsBlank(newTask) && response.Ok? ==> |response.data| > 0
      modifies this
      ensures request == InsertRequest(old(newTask))
      ensures IsBlank(old(newTask)) || response.Error? ==>
        todos == old(todos) && newTask == old(newTask)
      ensures !IsBlank(old(newTask)) && response.Ok? ==>
        todos == Appended(old(todos), response.data[0]) && newTask == ""
    {
      request := InsertRequest(newTask);
      if IsBlank(newTask) {
        return;
      }
      match response
      case Error(_) =>
      case Ok(rows) =>
        todos := Appended(todos, rows[0]);
        newTask := "";
    }

    /**
     * toggleTodo(id, isCompleted): issues an update of that id to
     * `!isCompleted`, the caller's flag negated; on success every local entry
     * with the id gets that flag, on error nothing changes.
     */
    method ToggleTodo(id: int, isCompleted: bool, response: Response<()>) returns (request: Request)
      modifies this
      ensures request == Update(Table, id, !isCompleted)
      ensures newTask == old(newTask)
      ensures response.Error? ==> todos == old(todos)
      ensures response.Ok? ==> todos == Toggled(old(todos), id, isCompleted)
    {
      request := Update(Table, id, !isCompleted);
      if response.Ok? {
        todos := Toggled(todos, id, isCompleted);
      }
    }

    /** deleteTodo(id): issues a delete of that id; on success every local
        entry with the id is dropped, on error nothing changes. */
    method DeleteTodo(id: int, response: Response<()>) returns (request: Request)
      modifies this
      ensures request == Delete(Table, id)
      ensures newTask == old(newTask)
      ensures response.Error? ==> todos == old(todos)
      ensures response.Ok? ==> todos == Removed(old(todos), id)
    {
      request := Delete(Table, id);
      if response.Ok? {
        todos := Removed(todos, id);
      }
    }
  }

  /** Mounting: the component is created and its effect runs fetchTodos once.
      When that fetch fails the list stays empty. */
  method Mount(response: Response<Option<seq<Todo>>>) returns (app: App, request: Request)
    ensures fresh(app)
    ensures request == Select(Table, "id", true) && app.newTask == ""
    ensures app.todos == if response.Ok? then FetchedRows(response.data) else []
  {
    app := new App();
    request := app.FetchTodos(response);
  }

  /** A session that loads one row, adds a second, completes the first and
      deletes the second. */
  method SessionAddToggleDelete()
  {
    var milk := Todo(1, "buy milk", false);
    var house := Todo(2, "clean house", false);
    var app, _ := Mount(Ok(Some([milk])));
    assert app.todos == [milk];
    app.EditNewTask("clean house");
    assert !IsWhiteSpace(app.newTask[0]);
    var sent := app.AddTodo(Ok([house]));
    assert sent.Some?;
    assert sent == Some(Insert(Table, "clean house", false));
    assert app.todos == [milk, house] && app.newTask == "";
    var _ := app.ToggleTodo(1, false, Ok(()));
    assert app.todos == [milk.(isCompleted := true), house];
    var _ := app.DeleteTodo(2, Ok(()));
    assert app.todos == [milk.(isCompleted := true)];
  }

  /** A failed first fetch leaves the list empty; a failed insert keeps both
      the list and the typed text; a blank input issues no insert at all. */
  method SessionInsertFails()
  {
    var app, _ := Mount(Error("network"));
    assert app.todos == [];
    app.EditNewTask(" x ");
    assert !IsWhiteSpace(app.newTask[1]);
    var sent := app.AddTodo(Error("network"));
    assert sent.Some?;
    assert sent == Some(Insert(Table, " x ", false));
    assert app.todos == [] && app.newTask == " x ";
    app.EditNewTask(" \t");
    assert IsWhiteSpace(app.newTask[0]) && IsWhiteSpace(app.newTask[1]);
    sent := app.AddTodo(Ok([]));
    assert sent == None && app.todos == [] && app.newTask == " \t";
  }
}
