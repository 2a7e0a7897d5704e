/**
 * The to-do store (TodoContext.tsx) and the to-do page's add form
 * (TodoPage.tsx). Every store operation returns a new list, as the source's
 * spread / map / filter / slice expressions do; `Date.now()` is the `now`
 * parameter.
 */
module Todos {
  import opened Common

  /**
   * A to-do. `dueDate` and `timestamp` are optional in the source; an absent
   * `isQuickTodo` reads as false, which is what it means at every use.
   */
  datatype Todo = Todo(id: int, text: string, completed: bool, category: string,
                       dueDate: Option<string>, isQuickTodo: bool, timestamp: Option<int>)

  /** `Omit<Todo, 'id'>`: what a caller of `addTodo` supplies. */
  datatype Draft = Draft(text: string, completed: bool, category: string,
                         dueDate: Option<string>, isQuickTodo: bool, timestamp: Option<int>)

  predicate HasId(todos: seq<Todo>, id: int) {
    exists i :: 0 <= i < |todos| && todos[i].id == id
  }

  /** `addTodo`: one new to-do at the end, carrying the draft's fields and the given id. */
  function AddTodo(todos: seq<Todo>, draft: Draft, now: int): (r: seq<Todo>)
    ensures |r| == |todos| + 1 && r[..|todos|] == todos
    ensures var t := r[|todos|];
      t.id == now && t.text == draft.text && t.completed == draft.completed && t.category == draft.category
      && t.dueDate == draft.dueDate && t.isQuickTodo == draft.isQuickTodo && t.timestamp == draft.timestamp
  {
    todos + [Todo(now, draft.text, draft.completed, draft.category, draft.dueDate, draft.isQuickTodo, draft.timestamp)]
  }

  /** `toggleTodo`: flip `completed` on every to-do with the id; nothing else changes. */
  function ToggleTodo(todos: seq<Todo>, id: int): (r: seq<Todo>)
    ensures |r| == |todos|
    ensures forall i :: 0 <= i < |todos| ==>
      if todos[i].id == id then r[i] == todos[i].(completed := !todos[i].completed) else r[i] == todos[i]
  {
    Update(todos, (t: Todo) => t.id == id, (t: Todo) => t.(completed := !t.completed))
  }

  /** Toggling the same id twice restores the list; toggling an absent id changes nothing. */
  lemma ToggleTodoTwice(todos: seq<Todo>, id: int)
    ensures ToggleTodo(ToggleTodo(todos, id), id) == todos
    ensures !HasId(todos, id) ==> ToggleTodo(todos, id) == todos
  {
    var once := ToggleTodo(todos, id);
    var twice := ToggleTodo(once, id);
    assert forall i :: 0 <= i < |todos| ==> twice[i] == todos[i];
  }

  /** `deleteTodo`: drop every to-do with the id, keep the rest in order. */
  function DeleteTodo(todos: seq<Todo>, id: int): (r: seq<Todo>)
    ensures !HasId(r, id)
    ensures forall i :: 0 <= i < |todos| && todos[i].id != id ==> todos[i] in r
    ensures forall t :: t in r ==> t in todos
    ensures !HasId(todos, id) ==> r == todos
  {
    Filter(todos, (t: Todo) => t.id != id)
  }

  /** Deleting keeps the survivors' relative order: it distributes over any split of the list. */
  lemma DeleteTodoKeepsOrder(a: seq<Todo>, b: seq<Todo>, id: int)
    ensures DeleteTodo(a + b, id) == DeleteTodo(a, id) + DeleteTodo(b, id)
  {
    FilterAppend(a, b, (t: Todo) => t.id != id);
  }

  /**
   * `addQuickTodo`: a trimmed, open quick to-do in front of the list. The id
   * and the timestamp come from two separate `Date.now()` calls, `now` and
   * `stamp`, which may differ by a millisecond.
   */
  function AddQuickTodo(todos: seq<Todo>, text: string, now: int, stamp: int): (r: seq<Todo>)
    ensures |r| == |todos| + 1 && r[1..] == todos
    ensures r[0] == Todo(now, Trim(text), false, "quick", None, true, Some(stamp))
  {
    [Todo(now, Trim(text), false, "quick", None, true, Some(stamp))] + todos
  }

  function QuickTodos(todos: seq<Todo>): seq<Todo> {
    Filter(todos, (t: Todo) => t.isQuickTodo)
  }

  /** `getQuickTodos`: the first (at most five) quick to-dos, in list order. */
  function GetQuickTodos(todos: seq<Todo>): (r: seq<Todo>)
    ensures |r| == Min(5, |QuickTodos(todos)|)
    ensures r == QuickTodos(todos)[..|r|]
    ensures forall i :: 0 <= i < |r| ==> r[i].isQuickTodo && r[i] in todos
  {
    Take(QuickTodos(todos), 5)
  }

  /** Since quick to-dos are put in front, a newly added one is always first among them. */
  lemma NewQuickTodoListedFirst(todos: seq<Todo>, text: string, now: int, stamp: int)
    ensures GetQuickTodos(AddQuickTodo(todos, text, now, stamp))[0] == Todo(now, Trim(text), false, "quick", None, true, Some(stamp))
  {
    var s := AddQuickTodo(todos, text, now, stamp);
    assert QuickTodos(s) == [s[0]] + QuickTodos(s[1..]);
  }

  function CompletedTodos(todos: seq<Todo>): seq<Todo> {
    Filter(todos, (t: Todo) => t.completed)
  }

  // ---------------------------------------------------------------------
  // The to-do page's add form
  // ---------------------------------------------------------------------

  datatype TodoForm = TodoForm(text: string, category: string, dueDate: string)

  const EmptyForm: TodoForm := TodoForm("", "personal", "")

  /**
   * `handleAddTodo`: whitespace-only text changes nothing; otherwise one open
   * to-do with the trimmed text, the chosen category and due date is added,
   * and the form is reset.
   */
  function HandleAddTodo(todos: seq<Todo>, form: TodoForm, now: int): (r: (seq<Todo>, TodoForm))
    ensures IsBlank(form.text) ==> r == (todos, form)
    ensures !IsBlank(form.text) ==>
      && r.1 == EmptyForm
      && |r.0| == |todos| + 1 && r.0[..|todos|] == todos
      && r.0[|todos|] == Todo(now, Trim(form.text), false, form.category, Some(form.dueDate), false, None)
      && r.0[|todos|].text != [] && !IsSpace(r.0[|todos|].text[0])
  {
    if Trim(form.text) != [] then
      (AddTodo(todos, Draft(Trim(form.text), false, form.category, Some(form.dueDate), false, None), now), EmptyForm)
    else
      (todos, form)
  }

  /** The "N of M completed" counter: the completed count never exceeds the total. */
  lemma CompletedCounter(todos: seq<Todo>)
    ensures |CompletedTodos(todos)| <= |todos|
    ensures |CompletedTodos(todos)| == |todos| <==> forall i :: 0 <= i < |todos| ==> todos[i].completed
  {
    CompletedAll(todos);
  }

  lemma {:induction false} CompletedAll(todos: seq<Todo>)
    ensures |CompletedTodos(todos)| == |todos| <==> forall i :: 0 <= i < |todos| ==> todos[i].completed
  {
    if todos != [] {
      CompletedAll(todos[1..]);
      assert forall i :: 1 <= i < |todos| ==> todos[i] == todos[1..][i - 1];
    }
  }
}
