/**
 * The todo widget (src/components/TodoList.tsx): each handler replaces the
 * list by a new one built with a spread, `map` or `filter`. The id of a new
 * todo is the clock reading `Date.now()`, passed in as `now`.
 */
module TodoList {
  import Text
  import Seqs

  datatype Todo = Todo(id: int, text: string, completed: bool)

  /** The widget's two state slots: the list and the input box. */
  datatype State = State(todos: seq<Todo>, newTodo: string)

  /** `addTodo`: a blank input changes nothing; otherwise one open todo with the trimmed text is appended and the input cleared. */
  function AddTodo(s: State, now: int): (r: State)
    ensures Text.AllSpace(s.newTodo) ==> r == s
    ensures !Text.AllSpace(s.newTodo) ==>
      |r.todos| == |s.todos| + 1 && r.todos[..|s.todos|] == s.todos
      && r.todos[|s.todos|] == Todo(now, Text.Trim(s.newTodo), false)
      && Text.Trim(s.newTodo) != "" && r.newTodo == ""
  {
    var text := Text.Trim(s.newTodo);
    if text == "" then s
    else State(s.todos + [Todo(now, text, false)], "")
  }

  /** `toggleTodo(id)`: flips `completed` on the todos with that id. */
  function ToggleTodo(todos: seq<Todo>, id: int): (r: seq<Todo>)
    ensures |r| == |todos|
  {
    seq(|todos|, k requires 0 <= k < |todos| =>
      if todos[k].id == id then todos[k].(completed := !todos[k].completed) else todos[k])
  }

  /** `deleteTodo(id)`: keeps the todos with another id. */
  function DeleteTodo(todos: seq<Todo>, id: int): (r: seq<Todo>)
    ensures |r| <= |todos|
    ensures forall t :: t in r ==> t in todos && t.id != id
  {
    Seqs.Filter(todos, (t: Todo) => t.id != id)
  }

  /** `clearCompleted`: keeps the open todos. */
  function ClearCompleted(todos: seq<Todo>): (r: seq<Todo>)
    ensures |r| <= |todos|
    ensures forall t :: t in r ==> t in todos && !t.completed
  {
    Seqs.Filter(todos, (t: Todo) => !t.completed)
  }

  /** Toggling changes only `completed`, only on the matching todos, and keeps the order. */
  lemma ToggleOnlyMatching(todos: seq<Todo>, id: int)
    ensures forall k :: 0 <= k < |todos| ==>
      var t, u := todos[k], ToggleTodo(todos, id)[k];
      u.id == t.id && u.text == t.text && (u.completed != t.completed <==> t.id == id)
  {
  }

  /** Toggling the same id twice restores the list. */
  lemma ToggleTwice(todos: seq<Todo>, id: int)
    ensures ToggleTodo(ToggleTodo(todos, id), id) == todos
  {
    var r := ToggleTodo(ToggleTodo(todos, id), id);
    assert forall k :: 0 <= k < |todos| ==> r[k] == todos[k];
  }

  /** Deleting removes exactly the todos with the id, keeps the others in order, and a second delete changes nothing. */
  lemma DeleteExactly(todos: seq<Todo>, more: seq<Todo>, id: int, t: Todo)
    ensures t in DeleteTodo(todos, id) <==> t in todos && t.id != id
    ensures DeleteTodo(todos + more, id) == DeleteTodo(todos, id) + DeleteTodo(more, id)
    ensures DeleteTodo(DeleteTodo(todos, id), id) == DeleteTodo(todos, id)
  {
    Seqs.FilterMembership(todos, (t: Todo) => t.id != id, t);
    Seqs.FilterAppend(todos, more, (t: Todo) => t.id != id);
    Seqs.FilterAll(DeleteTodo(todos, id), (t: Todo) => t.id != id);
  }

  /** Clearing removes exactly the completed todos and keeps the others in order. */
  lemma ClearExactly(todos: seq<Todo>, more: seq<Todo>, t: Todo)
    ensures t in ClearCompleted(todos) <==> t in todos && !t.completed
    ensures ClearCompleted(todos + more) == ClearCompleted(todos) + ClearCompleted(more)
    ensures ClearCompleted(ClearCompleted(todos)) == ClearCompleted(todos)
  {
    Seqs.FilterMembership(todos, (t: Todo) => !t.completed, t);
    Seqs.FilterAppend(todos, more, (t: Todo) => !t.completed);
    Seqs.FilterAll(ClearCompleted(todos), (t: Todo) => !t.completed);
  }

  /** Adding a todo under a fresh id and then deleting that id gives back the list. */
  lemma AddThenDelete(s: State, now: int)
    requires forall k :: 0 <= k < |s.todos| ==> s.todos[k].id != now
    ensures DeleteTodo(AddTodo(s, now).todos, now) == s.todos
  {
    var text := Text.Trim(s.newTodo);
    Seqs.FilterAll(s.todos, (t: Todo) => t.id != now);
    if text != "" {
      Seqs.FilterAppend(s.todos, [Todo(now, text, false)], (t: Todo) => t.id != now);
    }
  }

  /** A new todo is open, so clearing the completed ones right after adding keeps it. */
  lemma AddThenClear(s: State, now: int)
    requires !Text.AllSpace(s.newTodo)
    ensures ClearCompleted(AddTodo(s, now).todos) == ClearCompleted(s.todos) + [Todo(now, Text.Trim(s.newTodo), false)]
  {
    Seqs.FilterAppend(s.todos, [Todo(now, Text.Trim(s.newTodo), false)], (t: Todo) => !t.completed);
  }
}
