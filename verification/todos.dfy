/** The todo record and the pure sequence operations the client applies to its
    locally held list: status filtering, delete-by-id and replace-by-id. */
module Todos {

  /** One task as the REST API returns it. `status` is kept as an arbitrary
      string: the client only ever compares it for equality. */
  datatype Todo = Todo(id: string, title: string, description: string, status: string, createdAt: string)

  /** Filter value that selects every record. */
  const All: string := "all"
  const Pending: string := "pending"
  const Completed: string := "completed"

  /** `a` can be obtained from `b` by deleting elements, keeping the order. */
  ghost predicate IsSubsequence<T>(a: seq<T>, b: seq<T>)
    decreases |b|
  {
    && |a| <= |b|
    && (|a| == 0
        || (a[0] == b[0] && IsSubsequence(a[1..], b[1..]))
        || IsSubsequence(a, b[1..]))
  }

  /** The set of ids present in a list. */
  function Ids(s: seq<Todo>): set<string>
  {
    set t | t in s :: t.id
  }

  /** No two positions carry the same id (what React's `key` relies on). */
  predicate UniqueIds(s: seq<Todo>)
  {
    forall i, j :: 0 <= i < j < |s| ==> s[i].id != s[j].id
  }

  /** Array.prototype.filter: the elements satisfying `keep`, in order. */
  function Keep(s: seq<Todo>, keep: Todo -> bool): (r: seq<Todo>)
    ensures |r| <= |s|
    ensures forall i :: 0 <= i < |r| ==> keep(r[i])
    ensures forall x :: multiset(r)[x] == if keep(x) then multiset(s)[x] else 0
    ensures IsSubsequence(r, s)
  {
    if |s| == 0 then []
    else
      var rest := Keep(s[1..], keep);
      assert s == [s[0]] + s[1..];
      if keep(s[0]) then [s[0]] + rest else rest
  }

  /** A filter that rejects nothing in `s` returns `s` itself. */
  lemma {:induction false} KeepEverything(s: seq<Todo>, keep: Todo -> bool)
    requires forall i :: 0 <= i < |s| ==> keep(s[i])
    ensures Keep(s, keep) == s
  {
    if |s| > 0 {
      KeepEverything(s[1..], keep);
      assert s == [s[0]] + s[1..];
    }
  }

  /** The predicate of the status filter in the list view: `'all'` accepts
      every record, any other value accepts records with exactly that status. */
  predicate ShownUnder(filter: string, t: Todo)
  {
    filter == All || t.status == filter
  }

  /** The records shown under a filter value. */
  function FilterByStatus(todos: seq<Todo>, filter: string): (r: seq<Todo>)
    ensures filter == All ==> r == todos
    ensures filter != All ==> forall i :: 0 <= i < |r| ==> r[i].status == filter
    ensures filter != All ==> forall t :: multiset(r)[t] == if t.status == filter then multiset(todos)[t] else 0
    ensures IsSubsequence(r, todos)
  {
    if filter == All then
      KeepEverything(todos, t => ShownUnder(filter, t));
      Keep(todos, t => ShownUnder(filter, t))
    else
      Keep(todos, t => ShownUnder(filter, t))
  }

  /** Every record's status is one of the two the server produces. */
  predicate TwoStatuses(todos: seq<Todo>)
  {
    forall i :: 0 <= i < |todos| ==> todos[i].status == Pending || todos[i].status == Completed
  }

  /** With only `pending` and `completed` records, the two filters split the
      list: every record appears in exactly one of them, with its multiplicity. */
  lemma PendingCompletedPartition(todos: seq<Todo>)
    requires TwoStatuses(todos)
    ensures multiset(FilterByStatus(todos, Pending)) + multiset(FilterByStatus(todos, Completed)) == multiset(todos)
    ensures multiset(FilterByStatus(todos, Pending)) !! multiset(FilterByStatus(todos, Completed))
    ensures |FilterByStatus(todos, Pending)| + |FilterByStatus(todos, Completed)| == |todos|
  {
    var p := FilterByStatus(todos, Pending);
    var c := FilterByStatus(todos, Completed);
    forall t
      ensures (multiset(p) + multiset(c))[t] == multiset(todos)[t]
    {
      if t in multiset(todos) {
        assert t in todos;
        var i :| 0 <= i < |todos| && todos[i] == t;
        assert t.status == Pending || t.status == Completed;
      }
    }
    assert multiset(p) + multiset(c) == multiset(todos);
    assert |multiset(p) + multiset(c)| == |multiset(todos)|;
  }

  /** The list after a successful delete of `id`. */
  function RemoveById(todos: seq<Todo>, id: string): (r: seq<Todo>)
    ensures forall i :: 0 <= i < |r| ==> r[i].id != id
    ensures forall t :: multiset(r)[t] == if t.id == id then 0 else multiset(todos)[t]
    ensures IsSubsequence(r, todos)
  {
    Keep(todos, (t: Todo) => t.id != id)
  }

  /** Deleting `id` removes exactly that id from the id set. */
  lemma RemoveByIdIds(todos: seq<Todo>, id: string)
    ensures Ids(RemoveById(todos, id)) == Ids(todos) - {id}
  {
    var r := RemoveById(todos, id);
    forall k | k in Ids(todos) - {id}
      ensures k in Ids(r)
    {
      var t :| t in todos && t.id == k;
      assert multiset(r)[t] == multiset(todos)[t];
    }
    forall k | k in Ids(r)
      ensures k in Ids(todos) - {id}
    {
      var t :| t in r && t.id == k;
      assert multiset(r)[t] > 0;
    }
  }

  /** Deleting an id that is not present changes nothing. */
  lemma RemoveAbsentId(todos: seq<Todo>, id: string)
    requires id !in Ids(todos)
    ensures RemoveById(todos, id) == todos
  {
    forall i | 0 <= i < |todos|
      ensures todos[i].id != id
    {
      assert todos[i] in todos;
    }
    KeepEverything(todos, (t: Todo) => t.id != id);
  }

  /** A subsequence of a list with unique ids has unique ids. */
  lemma {:induction false} SubsequenceKeepsUniqueIds(a: seq<Todo>, b: seq<Todo>)
    requires IsSubsequence(a, b)
    requires UniqueIds(b)
    ensures UniqueIds(a)
    decreases |b|
  {
    if |a| == 0 {
    } else if a[0] == b[0] && IsSubsequence(a[1..], b[1..]) {
      SubsequenceKeepsUniqueIds(a[1..], b[1..]);
      SubsequenceElements(a[1..], b[1..]);
      forall j | 0 < j < |a|
        ensures a[0].id != a[j].id
      {
        assert a[j] == a[1..][j - 1];
        assert a[j] in a[1..];
        var k :| 0 <= k < |b[1..]| && b[1..][k] == a[j];
        assert b[k + 1] == a[j];
      }
    } else {
      SubsequenceKeepsUniqueIds(a, b[1..]);
    }
  }

  /** Every element of a subsequence occurs in the longer list. */
  lemma {:induction false} SubsequenceElements<T>(a: seq<T>, b: seq<T>)
    requires IsSubsequence(a, b)
    ensures forall x :: x in a ==> x in b
    decreases |b|
  {
    if |a| == 0 {
    } else if a[0] == b[0] && IsSubsequence(a[1..], b[1..]) {
      SubsequenceElements(a[1..], b[1..]);
      assert a == [a[0]] + a[1..];
      assert b == [b[0]] + b[1..];
    } else {
      SubsequenceElements(a, b[1..]);
      assert b == [b[0]] + b[1..];
    }
  }

  /** The list after a successful toggle of `id`, where the server answered
      with `t`: each record carrying `id` is replaced by `t`, others stay. */
  function ReplaceById(todos: seq<Todo>, id: string, t: Todo): (r: seq<Todo>)
    ensures |r| == |todos|
    ensures forall i :: 0 <= i < |r| ==> r[i] == if todos[i].id == id then t else todos[i]
  {
    if |todos| == 0 then []
    else [if todos[0].id == id then t else todos[0]] + ReplaceById(todos[1..], id, t)
  }

  /** The id set after a replacement: `id` gives way to the reply's id. */
  lemma ReplaceByIdIds(todos: seq<Todo>, id: string, t: Todo)
    ensures Ids(ReplaceById(todos, id, t)) == if id in Ids(todos) then Ids(todos) - {id} + {t.id} else Ids(todos)
  {
    var r := ReplaceById(todos, id, t);
    forall k | k in Ids(r)
      ensures k in (if id in Ids(todos) then Ids(todos) - {id} + {t.id} else Ids(todos))
    {
      var i :| 0 <= i < |r| && r[i].id == k;
      assert todos[i] in todos;
    }
    forall k | k in Ids(todos) && k != id
      ensures k in Ids(r)
    {
      var i :| 0 <= i < |todos| && todos[i].id == k;
      assert r[i] in r;
    }
    if id in Ids(todos) {
      var i :| 0 <= i < |todos| && todos[i].id == id;
      assert r[i] in r;
    }
  }

  /** When the reply keeps the id, the replacement keeps ids unique. */
  lemma ReplaceByIdKeepsUniqueIds(todos: seq<Todo>, id: string, t: Todo)
    requires UniqueIds(todos)
    requires t.id == id
    ensures UniqueIds(ReplaceById(todos, id, t))
  {
  }

  /** Replacing twice with the same reply is the same as replacing once. */
  lemma ReplaceByIdIdempotent(todos: seq<Todo>, id: string, t: Todo)
    ensures ReplaceById(ReplaceById(todos, id, t), id, t) == ReplaceById(todos, id, t)
  {
  }

  /** Replacing an id that is not present changes nothing. */
  lemma ReplaceAbsentId(todos: seq<Todo>, id: string, t: Todo)
    requires id !in Ids(todos)
    ensures ReplaceById(todos, id, t) == todos
  {
    var r := ReplaceById(todos, id, t);
    forall i | 0 <= i < |todos|
      ensures r[i] == todos[i]
    {
      assert todos[i] in todos;
    }
  }
}
