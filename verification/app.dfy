/** The `App` component: the list mirrored from the server, the add/edit form,
    and the status filter, as a state record with one pure transition per
    handler. Each awaited request is replaced by the `Reply` it settled with. */
module App {
  import opened Outcomes
  import opened Todos

  /** The component's `useState` fields. */
  datatype AppState = AppState(
    todos: seq<Todo>,
    title: string,
    description: string,
    editId: Option<string>,
    isLoading: bool,
    isFormVisible: bool,
    filterStatus: string)

  /** A request the form sends to the REST API. */
  datatype Request =
    | Create(title: string, description: string)
    | Update(id: string, title: string, description: string)

  /** What a submit does: the request it sent, the state once that request
      settled, and whether it started a refetch of the whole list. */
  datatype Submission = Submission(sent: Request, next: AppState, refetch: bool)

  /** State at mount: empty list, spinner on, form hidden, filter `'all'`. */
  const Initial: AppState := AppState([], "", "", None, true, false, All)

  /** JavaScript truthiness of `editId`: null and the empty string are falsy. */
  function Truthy(editId: Option<string>): (b: bool)
    ensures editId == None ==> !b
    ensures editId == Some("") ==> !b
    ensures editId.Some? && editId.value != "" ==> b
  {
    editId.Some? && editId.value != ""
  }

  /** `fetchTodos` once its GET settled: on success the list becomes exactly the
      response body; on failure it is kept. Either way loading ends. */
  function FetchSettled(s: AppState, reply: Reply<seq<Todo>>): (r: AppState)
    ensures !r.isLoading
    ensures reply.Ok? ==> r.todos == reply.payload
    ensures reply.Err? ==> r.todos == s.todos
    ensures r.(todos := s.todos, isLoading := s.isLoading) == s
  {
    match reply
    case Ok(data) => s.(todos := data, isLoading := false)
    case Err => s.(isLoading := false)
  }

  /** `handleSubmit`: a truthy `editId` sends an update addressed to it, any
      other value a create; both carry the form's title and description as
      they are. Success clears the fields, hides the form, resets `editId`
      after an update and starts a refetch; failure changes nothing. */
  function Submit(s: AppState, reply: Reply<Todo>): (r: Submission)
    ensures r.sent.Update? <==> Truthy(s.editId)
    ensures r.sent.Update? ==> r.sent.id == s.editId.value
    ensures r.sent.title == s.title && r.sent.description == s.description
    ensures reply.Ok? ==> r.refetch && r.next.title == "" && r.next.description == ""
    ensures reply.Ok? ==> !r.next.isFormVisible && !Truthy(r.next.editId)
    ensures reply.Ok? && s.editId != Some("") ==> r.next.editId == None
    ensures reply.Ok? ==> r.next.editId == if Truthy(s.editId) then None else s.editId
    ensures reply.Ok? ==> r.next.todos == s.todos
    ensures reply.Ok? ==> r.next.isLoading == s.isLoading && r.next.filterStatus == s.filterStatus
    ensures reply.Err? ==> r.next == s && !r.refetch
  {
    var sent := if Truthy(s.editId) then Update(s.editId.value, s.title, s.description)
                else Create(s.title, s.description);
    match reply
    case Err => Submission(sent, s, false)
    case Ok(_) =>
      var cleared := if Truthy(s.editId) then s.(editId := None) else s;
      Submission(sent, cleared.(title := "", description := "", isFormVisible := false), true)
  }

  /** `handleEdit`: load the record into the form and show it. */
  function Edit(s: AppState, todo: Todo): (r: AppState)
    ensures r.editId == Some(todo.id) && r.title == todo.title && r.description == todo.description
    ensures r.isFormVisible
    ensures r.todos == s.todos && r.isLoading == s.isLoading && r.filterStatus == s.filterStatus
  {
    s.(editId := Some(todo.id), title := todo.title, description := todo.description, isFormVisible := true)
  }

  /** The form's Cancel button: hide the form and forget the edit. */
  function Cancel(s: AppState): (r: AppState)
    ensures !r.isFormVisible && r.editId == None && r.title == "" && r.description == ""
    ensures r.todos == s.todos && r.isLoading == s.isLoading && r.filterStatus == s.filterStatus
  {
    s.(isFormVisible := false, editId := None, title := "", description := "")
  }

  /** `handleDelete` once its DELETE settled: on success the records with that
      id leave the list, the others stay in order; on failure nothing changes. */
  function DeleteSettled(s: AppState, id: string, reply: Reply<()>): (r: AppState)
    ensures reply.Ok? ==> r.todos == RemoveById(s.todos, id)
    ensures reply.Err? ==> r == s
    ensures r.(todos := s.todos) == s
  {
    match reply
    case Ok(_) => s.(todos := RemoveById(s.todos, id))
    case Err => s
  }

  /** `handleToggleComplete` once its PATCH settled: on success every record
      carrying the toggled id is replaced by the server's record; on failure
      nothing changes. */
  function ToggleSettled(s: AppState, todo: Todo, reply: Reply<Todo>): (r: AppState)
    ensures reply.Ok? ==> r.todos == ReplaceById(s.todos, todo.id, reply.payload)
    ensures reply.Err? ==> r == s
    ensures r.(todos := s.todos) == s
  {
    match reply
    case Ok(updated) => s.(todos := ReplaceById(s.todos, todo.id, updated))
    case Err => s
  }

  /** `filteredTodos`: the records the grid shows under the current filter. */
  function Visible(s: AppState): (r: seq<Todo>)
    ensures s.filterStatus == All ==> r == s.todos
    ensures s.filterStatus != All ==> forall i :: 0 <= i < |r| ==> r[i].status == s.filterStatus
    ensures s.filterStatus != All ==> forall t :: multiset(r)[t] == if t.status == s.filterStatus then multiset(s.todos)[t] else 0
    ensures IsSubsequence(r, s.todos)
  {
    FilterByStatus(s.todos, s.filterStatus)
  }

  /** One user action or one settled request. A submit's refetch is not awaited,
      so its reply arrives as a separate `Fetched` event, in any order. */
  datatype Event =
    | Fetched(list: Reply<seq<Todo>>)
    | Submitted(reply: Reply<Todo>)
    | EditClicked(todo: Todo)
    | CancelClicked
    | Deleted(id: string, done: Reply<()>)
    | Toggled(todo: Todo, toggled: Reply<Todo>)
    | FilterClicked(status: string)
    | PlusClicked
    | TitleTyped(title: string)
    | DescriptionTyped(description: string)

  /** The effect of one event on the state. */
  function Step(s: AppState, e: Event): (r: AppState)
    ensures !WritesList(e) ==> r.todos == s.todos
    ensures !s.isLoading ==> !r.isLoading
    ensures e.FilterClicked? ==> r == s.(filterStatus := e.status)
    ensures e.PlusClicked? ==> r == s.(isFormVisible := !s.isFormVisible)
    ensures e.TitleTyped? ==> r == s.(title := e.title)
    ensures e.DescriptionTyped? ==> r == s.(description := e.description)
  {
    match e
    case Fetched(reply) => FetchSettled(s, reply)
    case Submitted(reply) => Submit(s, reply).next
    case EditClicked(todo) => Edit(s, todo)
    case CancelClicked => Cancel(s)
    case Deleted(id, reply) => DeleteSettled(s, id, reply)
    case Toggled(todo, reply) => ToggleSettled(s, todo, reply)
    case FilterClicked(status) => s.(filterStatus := status)
    case PlusClicked => s.(isFormVisible := !s.isFormVisible)
    case TitleTyped(value) => s.(title := value)
    case DescriptionTyped(value) => s.(description := value)
  }

  /** The state after a whole sequence of events: the last event applied to
      the state after all the earlier ones. */
  function Run(s: AppState, events: seq<Event>): (r: AppState)
    ensures |events| == 0 ==> r == s
    ensures |events| > 0 ==> r == Step(Run(s, events[..|events| - 1]), events[|events| - 1])
    decreases |events|
  {
    if |events| == 0 then s
    else
      var rest := events[1..];
      assert |rest| > 0 ==> events[..|events| - 1][1..] == rest[..|rest| - 1];
      Run(Step(s, events[0]), rest)
  }

  /** The event is a successful reply that writes the list. */
  predicate WritesList(e: Event)
  {
    || (e.Fetched? && e.list.Ok?)
    || (e.Deleted? && e.done.Ok?)
    || (e.Toggled? && e.toggled.Ok?)
  }

  /** The server is assumed to list unique ids and to answer a toggle with the
      record it was asked to toggle. */
  predicate ServerConsistent(e: Event)
  {
    && (e.Fetched? && e.list.Ok? ==> UniqueIds(e.list.payload))
    && (e.Toggled? && e.toggled.Ok? ==> e.toggled.payload.id == e.todo.id)
  }

  /** The list only changes on a successful list, delete or toggle reply: any
      run without one (failures, typing, filtering, editing, submits) leaves it
      as it was. */
  lemma {:induction false} OnlySuccessWritesList(s: AppState, events: seq<Event>)
    requires forall i :: 0 <= i < |events| ==> !WritesList(events[i])
    ensures Run(s, events).todos == s.todos
    decreases |events|
  {
    if |events| > 0 {
      OnlySuccessWritesList(Step(s, events[0]), events[1..]);
    }
  }

  /** One event keeps ids unique when the server is consistent. */
  lemma StepKeepsUniqueIds(s: AppState, e: Event)
    requires UniqueIds(s.todos) && ServerConsistent(e)
    ensures UniqueIds(Step(s, e).todos)
  {
    match e
    case Deleted(id, reply) =>
      if reply.Ok? {
        SubsequenceKeepsUniqueIds(RemoveById(s.todos, id), s.todos);
      }
    case Toggled(todo, reply) =>
      if reply.Ok? {
        ReplaceByIdKeepsUniqueIds(s.todos, todo.id, reply.payload);
      }
    case _ =>
  }

  /** Against a consistent server the list never holds two records with the
      same id. */
  lemma {:induction false} RunKeepsUniqueIds(s: AppState, events: seq<Event>)
    requires UniqueIds(s.todos)
    requires forall i :: 0 <= i < |events| ==> ServerConsistent(events[i])
    ensures UniqueIds(Run(s, events).todos)
    decreases |events|
  {
    if |events| > 0 {
      StepKeepsUniqueIds(s, events[0]);
      RunKeepsUniqueIds(Step(s, events[0]), events[1..]);
    }
  }

  /** No event turns the loading flag back on. */
  lemma {:induction false} LoadingStaysOff(s: AppState, events: seq<Event>)
    requires !s.isLoading
    ensures !Run(s, events).isLoading
    decreases |events|
  {
    if |events| > 0 {
      LoadingStaysOff(Step(s, events[0]), events[1..]);
    }
  }

  /** The spinner shown at mount goes away once the mount-time fetch settles,
      whether it succeeded or failed, and never comes back. */
  lemma LoadingEndsAfterFetch(reply: Reply<seq<Todo>>, events: seq<Event>)
    ensures !Run(FetchSettled(Initial, reply), events).isLoading
  {
    LoadingStaysOff(FetchSettled(Initial, reply), events);
  }

  /** A successful delete removes exactly `id` from the ids the client holds;
      a failed one keeps the record. */
  lemma DeleteIds(s: AppState, id: string, reply: Reply<()>)
    ensures reply.Ok? ==> Ids(DeleteSettled(s, id, reply).todos) == Ids(s.todos) - {id}
    ensures reply.Err? && id in Ids(s.todos) ==> id in Ids(DeleteSettled(s, id, reply).todos)
  {
    RemoveByIdIds(s.todos, id);
  }

  /** A successful toggle whose reply keeps the id leaves the id set and the
      list length as they were. */
  lemma ToggleIds(s: AppState, todo: Todo, reply: Reply<Todo>)
    requires reply.Ok? ==> reply.payload.id == todo.id
    ensures Ids(ToggleSettled(s, todo, reply).todos) == Ids(s.todos)
    ensures |ToggleSettled(s, todo, reply).todos| == |s.todos|
  {
    if reply.Ok? {
      ReplaceByIdIds(s.todos, todo.id, reply.payload);
    }
  }

  /** Editing a record and submitting the unchanged form sends an update of
      that record with its own fields (for any non-empty id); success resets
      the form completely. */
  lemma EditThenSubmitUpdates(s: AppState, todo: Todo, reply: Reply<Todo>)
    requires todo.id != ""
    ensures Submit(Edit(s, todo), reply).sent == Update(todo.id, todo.title, todo.description)
    ensures reply.Ok? ==> Submit(Edit(s, todo), reply).next == Cancel(s)
  {
  }

  /** Cancel undoes everything Edit did to the form. */
  lemma CancelUndoesEdit(s: AppState, todo: Todo)
    ensures Cancel(Edit(s, todo)) == Cancel(s)
  {
  }

  /** The toggle scenario: one pending record, the server answers with it
      completed; the list holds the completed record and the `'completed'`
      filter shows it while the `'pending'` filter shows nothing. */
  lemma ToggleScenario(s: AppState)
    requires s.todos == [Todo("1", "A", "", Pending, "")]
    ensures ToggleSettled(s, s.todos[0], Ok(Todo("1", "A", "", Completed, ""))).todos == [Todo("1", "A", "", Completed, "")]
    ensures FilterByStatus(ToggleSettled(s, s.todos[0], Ok(Todo("1", "A", "", Completed, ""))).todos, Completed) == [Todo("1", "A", "", Completed, "")]
    ensures FilterByStatus(ToggleSettled(s, s.todos[0], Ok(Todo("1", "A", "", Completed, ""))).todos, Pending) == []
  {
    var t := Todo("1", "A", "", Completed, "");
    var after := ToggleSettled(s, s.todos[0], Ok(t)).todos;
    assert after == [t];
    var shown := FilterByStatus(after, Completed);
    assert multiset(shown)[t] == 1;
  }
}
