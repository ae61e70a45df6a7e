/** The stand-alone `TodoList` component: one row per todo, at most one of
    them in edit mode, with edit buffers for its title and description. */
module TodoList {
  import opened Outcomes
  import opened Todos

  /** `editId` (null when no row is edited) and the two edit buffers. */
  datatype ListState = ListState(editId: Option<string>, editTitle: string, editDescription: string)

  /** The arguments of one `onUpdate(id, {title, description})` call. */
  datatype UpdateCall = UpdateCall(id: string, title: string, description: string)

  /** What Save does: the next state and the single call it makes. */
  datatype Saved = Saved(next: ListState, call: UpdateCall)

  /** One rendered row: the record and whether it shows the edit inputs. */
  datatype Row = Row(todo: Todo, editing: bool)

  /** Nothing is edited and the buffers are empty. */
  const Initial: ListState := ListState(None, "", "")

  /** The Edit button of a row: that record becomes the edited one and its
      fields are copied into the buffers. */
  function Edit(s: ListState, todo: Todo): (r: ListState)
    ensures r.editId == Some(todo.id)
    ensures r.editTitle == todo.title && r.editDescription == todo.description
  {
    ListState(Some(todo.id), todo.title, todo.description)
  }

  /** Typing in the title input of the edited row. */
  function TypeTitle(s: ListState, value: string): ListState
  {
    s.(editTitle := value)
  }

  /** Typing in the description textarea of the edited row. */
  function TypeDescription(s: ListState, value: string): ListState
  {
    s.(editDescription := value)
  }

  /** Save on the row with id `id`: one `onUpdate` call carrying the buffers as
      they are (no validation, so an empty title is sent too), then edit mode
      ends. The buffers themselves are not cleared. */
  function Update(s: ListState, id: string): (r: Saved)
    ensures r.call == UpdateCall(id, s.editTitle, s.editDescription)
    ensures r.next.editId == None
    ensures r.next.editTitle == s.editTitle && r.next.editDescription == s.editDescription
  {
    Saved(s.(editId := None), UpdateCall(id, s.editTitle, s.editDescription))
  }

  /** Cancel on the edited row: edit mode ends, no call is made and the
      buffers keep their contents. */
  function Cancel(s: ListState): (r: ListState)
    ensures r.editId == None
    ensures r.editTitle == s.editTitle && r.editDescription == s.editDescription
  {
    s.(editId := None)
  }

  /** `todos.map(...)`: one row per record, in order; a row is in edit mode
      when its id is strictly equal to `editId` (never when it is null). */
  function Rows(todos: seq<Todo>, s: ListState): (r: seq<Row>)
    ensures |r| == |todos|
    ensures forall i :: 0 <= i < |r| ==> r[i].todo == todos[i]
    ensures forall i :: 0 <= i < |r| ==> (r[i].editing <==> s.editId == Some(todos[i].id))
  {
    if |todos| == 0 then []
    else [Row(todos[0], s.editId == Some(todos[0].id))] + Rows(todos[1..], s)
  }

  /** With unique ids at most one row is in edit mode. */
  lemma AtMostOneEditing(todos: seq<Todo>, s: ListState)
    requires UniqueIds(todos)
    ensures forall i, j :: 0 <= i < |todos| && 0 <= j < |todos| && Rows(todos, s)[i].editing && Rows(todos, s)[j].editing ==> i == j
  {
  }

  /** With `editId` null no row is in edit mode. */
  lemma NoneEditing(todos: seq<Todo>, s: ListState)
    requires s.editId == None
    ensures forall i :: 0 <= i < |todos| ==> !Rows(todos, s)[i].editing
  {
  }

  /** After Edit on the record at position `k` of a list with unique ids,
      that row and no other is in edit mode. */
  lemma EditSelectsOneRow(todos: seq<Todo>, s: ListState, k: nat)
    requires UniqueIds(todos) && k < |todos|
    ensures forall i :: 0 <= i < |todos| ==> (Rows(todos, Edit(s, todos[k]))[i].editing <==> i == k)
  {
  }

  /** Saving without typing sends the record's own title and description back
      under its own id, and leaves no row in edit mode. */
  lemma EditThenSaveRoundTrip(s: ListState, todo: Todo)
    ensures Update(Edit(s, todo), todo.id).call == UpdateCall(todo.id, todo.title, todo.description)
    ensures Update(Edit(s, todo), todo.id).next.editId == None
  {
  }

  /** Cancel right after Edit leaves no row in edit mode and the buffers
      holding the record's fields, so no `onUpdate` call carries them. */
  lemma EditThenCancel(todos: seq<Todo>, s: ListState, todo: Todo)
    ensures forall i :: 0 <= i < |todos| ==> !Rows(todos, Cancel(Edit(s, todo)))[i].editing
    ensures Cancel(Edit(s, todo)) == ListState(None, todo.title, todo.description)
  {
  }
}
