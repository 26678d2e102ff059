/** The todo list itself: an ordered sequence of entries, addressed by position. */
module TodoList {

  /** One entry: `{ text: string; done: boolean }`. */
  datatype Todo = Todo(text: string, done: bool)

  /** `todos[i].done = !todos[i].done` on a copy of the list. */
  function Toggled(todos: seq<Todo>, i: nat): (r: seq<Todo>)
    requires i < |todos|
    ensures |r| == |todos|
    ensures r[i].text == todos[i].text && r[i].done == !todos[i].done
    ensures forall j :: 0 <= j < |todos| && j != i ==> r[j] == todos[j]
  {
    todos[i := todos[i].(done := !todos[i].done)]
  }

  /** Toggling the same entry twice gives back the original list. */
  lemma ToggledTwice(todos: seq<Todo>, i: nat)
    requires i < |todos|
    ensures Toggled(Toggled(todos, i), i) == todos
  {
  }

  /** Toggles at different positions commute. */
  lemma ToggledCommute(todos: seq<Todo>, i: nat, j: nat)
    requires i < |todos| && j < |todos|
    ensures Toggled(Toggled(todos, i), j) == Toggled(Toggled(todos, j), i)
  {
  }
}
