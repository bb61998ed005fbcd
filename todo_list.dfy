/**
 * The todo row and the three pure list transformations the handlers of the
 * App component apply to their local mirror of the `todos` table: appending
 * an inserted row, re-flagging the rows with a given id, and dropping the
 * rows with a given id.
 */
module TodoList {

  /** One row of the `todos` table: server-assigned id, text, done flag. */
  datatype Todo = Todo(id: int, task: string, isCompleted: bool)

  /** Number of entries carrying the given id. */
  function CountId(todos: seq<Todo>, id: int): (n: nat)
    ensures n <= |todos|
  {
    if todos == [] then 0
    else (if todos[0].id == id then 1 else 0) + CountId(todos[1..], id)
  }

  /** The set of ids present in the list. */
  function Ids(todos: seq<Todo>): set<int>
  {
    set t | t in todos :: t.id
  }

  /** `[...todos, row]`: every earlier entry keeps its place, the row is last. */
  function Appended(todos: seq<Todo>, row: Todo): (r: seq<Todo>)
    ensures |r| == |todos| + 1 && r[|todos|] == row
    ensures r[..|todos|] == todos
  {
    todos + [row]
  }

  /**
   * `todos.map(todo => todo.id === id ? {...todo, is_completed: !isCompleted} : todo)`:
   * the length and the order are kept; every entry with the id keeps its id
   * and its task and gets the flag `!isCompleted`; every other entry is
   * unchanged.
   */
  function Toggled(todos: seq<Todo>, id: int, isCompleted: bool): (r: seq<Todo>)
    ensures |r| == |todos|
    ensures forall i :: 0 <= i < |todos| && todos[i].id == id ==>
      r[i].id == id && r[i].task == todos[i].task && r[i].isCompleted == !isCompleted
    ensures forall i :: 0 <= i < |todos| && todos[i].id != id ==> r[i] == todos[i]
  {
    if todos == [] then []
    else
      var t := todos[0];
      [if t.id == id then t.(isCompleted := !isCompleted) else t] + Toggled(todos[1..], id, isCompleted)
  }

  /**
   * `todos.filter(todo => todo.id !== id)`: no entry with the id is left,
   * every other entry is kept, and the length drops by the number of
   * entries that had the id. That order and multiplicity are kept is
   * RemovedAt below.
   */
  function Removed(todos: seq<Todo>, id: int): (r: seq<Todo>)
    ensures |r| == |todos| - CountId(todos, id)
    ensures forall t :: t in r <==> t in todos && t.id != id
  {
    if todos == [] then []
    else if todos[0].id == id then Removed(todos[1..], id)
    else [todos[0]] + Removed(todos[1..], id)
  }

  // ---------------------------------------------------------------------
  // Toggle

  /** With the flag passed back, a second toggle undoes the first exactly
      when every matching entry had the flag the first toggle was given. */
  lemma ToggleInvolution(todos: seq<Todo>, id: int, b: bool)
    ensures Toggled(Toggled(todos, id, b), id, !b) == todos
        <==> forall i :: 0 <= i < |todos| && todos[i].id == id ==> todos[i].isCompleted == b
  {
  }

  /** Toggling twice with the same flag is the same as toggling once. */
  lemma ToggleIdempotent(todos: seq<Todo>, id: int, b: bool)
    ensures Toggled(Toggled(todos, id, b), id, b) == Toggled(todos, id, b)
  {
  }

  /** A toggle with an id no entry carries changes nothing. */
  lemma ToggleAbsentId(todos: seq<Todo>, id: int, b: bool)
    requires id !in Ids(todos)
    ensures Toggled(todos, id, b) == todos
  {
  }

  /** Toggling keeps the set of ids. */
  lemma ToggleKeepsIds(todos: seq<Todo>, id: int, b: bool)
    ensures Ids(Toggled(todos, id, b)) == Ids(todos)
  {
  }

  // ---------------------------------------------------------------------
  // Delete

  /** Filtering distributes over concatenation. */
  lemma {:induction false} RemovedAppend(a: seq<Todo>, b: seq<Todo>, id: int)
    ensures Removed(a + b, id) == Removed(a, id) + Removed(b, id)
  {
    if a == [] {
      assert a + b == b;
    } else {
      var ab := a + b;
      assert ab[0] == a[0] && ab[1..] == a[1..] + b;
      RemovedAppend(a[1..], b, id);
      var head := if a[0].id == id then [] else [a[0]];
      assert Removed(ab, id) == head + Removed(a[1..] + b, id);
      assert Removed(a, id) == head + Removed(a[1..], id);
    }
  }

  /**
   * Relative order is kept: a surviving entry at index i of the input sits at
   * index `|Removed(todos[..i], id)|` of the output, the number of survivors
   * before it, so survivors appear in the output in their input order.
   */
  lemma RemovedAt(todos: seq<Todo>, id: int, i: nat)
    requires i < |todos| && todos[i].id != id
    ensures |Removed(todos[..i], id)| < |Removed(todos, id)|
    ensures Removed(todos, id)[|Removed(todos[..i], id)|] == todos[i]
  {
    assert todos == todos[..i] + todos[i..];
    RemovedAppend(todos[..i], todos[i..], id);
    assert todos[i..] == [todos[i]] + todos[i + 1..];
  }

  /** Survivors at indices i < j land at strictly increasing output positions. */
  lemma RemovedKeepsOrder(todos: seq<Todo>, id: int, i: nat, j: nat)
    requires i < j < |todos| && todos[i].id != id
    ensures |Removed(todos[..i], id)| < |Removed(todos[..j], id)|
  {
    assert todos[..j] == todos[..i] + todos[i..j];
    RemovedAppend(todos[..i], todos[i..j], id);
    assert todos[i..j] == [todos[i]] + todos[i + 1..j];
  }

  /** A delete with an id no entry carries changes nothing. */
  lemma {:induction false} RemoveAbsentId(todos: seq<Todo>, id: int)
    requires id !in Ids(todos)
    ensures Removed(todos, id) == todos
  {
    if todos != [] {
      assert todos[0] in todos;
      assert Ids(todos[1..]) <= Ids(todos) by {
        forall x | x in Ids(todos[1..]) ensures x in Ids(todos) {
          var t :| t in todos[1..] && t.id == x;
          assert t in todos;
        }
      }
      RemoveAbsentId(todos[1..], id);
    }
  }

  /** Deleting is idempotent. */
  lemma RemoveIdempotent(todos: seq<Todo>, id: int)
    ensures Removed(Removed(todos, id), id) == Removed(todos, id)
  {
  }

  /** Deleting takes exactly the id out of the set of ids. */
  lemma RemoveIds(todos: seq<Todo>, id: int)
    ensures Ids(Removed(todos, id)) == Ids(todos) - {id}
  {
  }

  // ---------------------------------------------------------------------
  // Add

  /** Appending adds exactly the row's id to the set of ids. */
  lemma AppendIds(todos: seq<Todo>, row: Todo)
    ensures Ids(Appended(todos, row)) == Ids(todos) + {row.id}
  {
  }
}
