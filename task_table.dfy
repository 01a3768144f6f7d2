/**
 * The in-memory task table of the task service (server.js), as values.
 *
 * The service keeps one ordered array of task records. Each request handler
 * is modelled here as a function from the table before the request to a
 * `Step`: the table after it and the handler's reply (the task it answers
 * with, or the error it reports). Identifiers and clock readings are inputs.
 */
module TaskTable {
  import opened Wrappers
  import opened Json

  type Id = string

  /** An ISO-8601 clock reading, opaque to the service. */
  type Timestamp = string

  /**
   * A stored record. `title`, `description` and `completed` hold whatever
   * the request carried: create checks only that the title is truthy and that
   * `completed` is a boolean, and update checks nothing.
   */
  datatype Task = Task(
    id: Id,
    title: Value,
    description: Value,
    completed: Value,
    createdAt: Timestamp,
    updatedAt: Timestamp)

  /** The three fields a create or update request body may carry. */
  datatype Body = Body(title: Value, description: Value, completed: Value)

  /** The error replies of the handlers, with their message and HTTP status. */
  datatype Error = TitleRequired | CompletedNotBoolean | TaskNotFound
  {
    function Message(): string
    {
      match this
      case TitleRequired => "Title is required"
      case CompletedNotBoolean => "Completed must be a boolean"
      case TaskNotFound => "Task not found"
    }

    function Status(): nat
    {
      if TaskNotFound? then 404 else 400
    }
  }

  /** The table after a request, and what the request answers. */
  datatype Step = Step(table: seq<Task>, reply: Result<Task, Error>)

  /** The reply of the list handler: the selected tasks and their count. */
  datatype Listing = Listing(tasks: seq<Task>, total: nat)

  // ---------------------------------------------------------------------------
  // Reference definitions

  /** Some task of `s` carries `id`. */
  predicate HasId(s: seq<Task>, id: Id)
  {
    exists i :: 0 <= i < |s| && s[i].id == id
  }

  /** No two tasks of `s` share an id. */
  predicate UniqueIds(s: seq<Task>)
  {
    forall i, j :: 0 <= i < j < |s| ==> s[i].id != s[j].id
  }

  /** A record as create would store it: a truthy title and a boolean `completed`. */
  predicate WellFormed(t: Task)
  {
    Truthy(t.title) && t.completed.Bool?
  }

  /** `a` is `b` with some elements deleted, the rest kept in order. */
  predicate IsSubsequence(a: seq<Task>, b: seq<Task>)
    decreases |b|
  {
    if a == [] then true
    else if b == [] then false
    else (a[0] == b[0] && IsSubsequence(a[1..], b[1..])) || IsSubsequence(a, b[1..])
  }

  // ---------------------------------------------------------------------------
  // Lookup: `tasks.findIndex` and `tasks.find` on the id

  /** `findTaskIndexById`: the first index holding `id`, or -1. */
  function FindIndex(s: seq<Task>, id: Id): (r: int)
    ensures -1 <= r < |s|
    ensures r == -1 <==> !HasId(s, id)
    ensures 0 <= r ==> s[r].id == id && forall j :: 0 <= j < r ==> s[j].id != id
  {
    if s == [] then -1
    else if s[0].id == id then 0
    else
      var k := FindIndex(s[1..], id);
      assert forall j :: 1 <= j < |s| ==> s[j] == s[1..][j - 1];
      if k == -1 then -1 else k + 1
  }

  /** `findTaskById`: the first task holding `id`, if any. */
  function Find(s: seq<Task>, id: Id): (r: Option<Task>)
    ensures r.None? <==> !HasId(s, id)
    ensures r.Some? ==> r.value.id == id && r.value in s
  {
    if s == [] then None
    else if s[0].id == id then Some(s[0])
    else
      assert forall j :: 1 <= j < |s| ==> s[j] == s[1..][j - 1];
      Find(s[1..], id)
  }

  /** `find` and `findIndex` agree: `find` yields the element at the index `findIndex` reports. */
  lemma {:induction false} FindAtFindIndex(s: seq<Task>, id: Id)
    ensures Find(s, id) == if FindIndex(s, id) == -1 then None else Some(s[FindIndex(s, id)])
  {
    if s != [] && s[0].id != id {
      FindAtFindIndex(s[1..], id);
    }
  }

  /** With unique ids, the task found is the only one with that id. */
  lemma FindIndexUnique(s: seq<Task>, id: Id, i: int)
    requires UniqueIds(s)
    requires 0 <= i < |s| && s[i].id == id
    ensures FindIndex(s, id) == i
  {
  }

  // ---------------------------------------------------------------------------
  // Handlers

  /** GET /tasks/:id. */
  function Get(s: seq<Task>, id: Id): (r: Result<Task, Error>)
    ensures r.Failure? <==> !HasId(s, id)
    ensures r.Failure? ==> r.error == TaskNotFound
    ensures r.Success? ==> r.value == s[FindIndex(s, id)]
  {
    FindAtFindIndex(s, id);
    match Find(s, id)
    case None => Failure(TaskNotFound)
    case Some(t) => Success(t)
  }

  /** The validation of POST /tasks, in the order the handler applies it. */
  function CreateCheck(b: Body): (r: Option<Error>)
    ensures r == Some(TitleRequired) <==> !Truthy(b.title)
    ensures r == Some(CompletedNotBoolean) <==>
              Truthy(b.title) && !b.completed.Undefined? && !b.completed.Bool?
    ensures r == None <==> Truthy(b.title) && (b.completed.Undefined? || b.completed.Bool?)
  {
    if !Truthy(b.title) then Some(TitleRequired)
    else if !DefaultIfUndefined(b.completed, Bool(false)).Bool? then Some(CompletedNotBoolean)
    else None
  }

  /** The record POST /tasks builds from a body that passed validation. */
  function NewTask(b: Body, id: Id, createdAt: Timestamp, updatedAt: Timestamp): Task
  {
    Task(id, b.title, Or(b.description, Str("")), DefaultIfUndefined(b.completed, Bool(false)),
         createdAt, updatedAt)
  }

  /**
   * POST /tasks. `id` is the identifier the handler generates; `createdAt`
   * and `updatedAt` are its two readings of the clock.
   */
  function Create(s: seq<Task>, b: Body, id: Id, createdAt: Timestamp, updatedAt: Timestamp): (r: Step)
    ensures r.reply.Failure? ==> r.table == s
    ensures !Truthy(b.title) ==> r.reply == Failure(TitleRequired)
    ensures Truthy(b.title) && !b.completed.Undefined? && !b.completed.Bool? ==>
              r.reply == Failure(CompletedNotBoolean)
    ensures r.reply.Success? <==> Truthy(b.title) && (b.completed.Undefined? || b.completed.Bool?)
    ensures r.reply.Success? ==>
              var t := r.reply.value;
              && r.table == s + [t]
              && t.id == id && t.createdAt == createdAt && t.updatedAt == updatedAt
              && t.title == b.title
              && (Truthy(b.description) ==> t.description == b.description)
              && (!Truthy(b.description) ==> t.description == Str(""))
              && (b.completed.Undefined? ==> t.completed == Bool(false))
              && (!b.completed.Undefined? ==> t.completed == b.completed)
  {
    match CreateCheck(b)
    case Some(e) => Step(s, Failure(e))
    case None =>
      var t := NewTask(b, id, createdAt, updatedAt);
      Step(s + [t], Success(t))
  }

  /** One step of `filter`: the per-task counts carry over from the tail to the whole sequence. */
  lemma KeptCounts(s: seq<Task>, rest: seq<Task>, want: bool)
    requires s != []
    requires forall t :: multiset(rest)[t] == if t.completed == Bool(want) then multiset(s[1..])[t] else 0
    ensures var r := if s[0].completed == Bool(want) then [s[0]] + rest else rest;
            forall t :: multiset(r)[t] == if t.completed == Bool(want) then multiset(s)[t] else 0
  {
    assert s == [s[0]] + s[1..];
    assert multiset(s) == multiset{s[0]} + multiset(s[1..]);
  }

  /** `tasks.filter(task => task.completed === want)`. */
  function Filter(s: seq<Task>, want: bool): (r: seq<Task>)
    ensures |r| <= |s|
    ensures forall i :: 0 <= i < |r| ==> r[i].completed == Bool(want)
    ensures forall i :: 0 <= i < |s| && s[i].completed == Bool(want) ==> s[i] in r
    ensures IsSubsequence(r, s)
    ensures forall t :: multiset(r)[t] == if t.completed == Bool(want) then multiset(s)[t] else 0
  {
    if s == [] then []
    else
      var rest := Filter(s[1..], want);
      var keep := s[0].completed == Bool(want);
      var r := if keep then [s[0]] + rest else rest;
      assert forall j :: 1 <= j < |s| ==> s[j] == s[1..][j - 1];
      KeptCounts(s, rest, want);
      r
  }

  /**
   * GET /tasks. `query` is the `completed` query parameter: absent, the whole
   * table; otherwise the tasks whose `completed` is `true` when the parameter
   * is the string "true" and `false` for any other value.
   */
  function List(s: seq<Task>, query: Value): (r: Listing)
    ensures r.total == |r.tasks|
    ensures query.Undefined? ==> r.tasks == s
    ensures !query.Undefined? ==> r.tasks == Filter(s, query == Str("true"))
  {
    var selected := if query.Undefined? then s else Filter(s, query == Str("true"));
    Listing(selected, |selected|)
  }

  /** The record PUT /tasks/:id stores: fields the body leaves undefined are kept. */
  function Merge(t: Task, b: Body, now: Timestamp): (r: Task)
    ensures r.id == t.id && r.createdAt == t.createdAt && r.updatedAt == now
    ensures b.title.Undefined? ==> r.title == t.title
    ensures !b.title.Undefined? ==> r.title == b.title
    ensures b.description.Undefined? ==> r.description == t.description
    ensures !b.description.Undefined? ==> r.description == b.description
    ensures b.completed.Undefined? ==> r.completed == t.completed
    ensures !b.completed.Undefined? ==> r.completed == b.completed
  {
    t.(title := Overlay(t.title, b.title),
       description := Overlay(t.description, b.description),
       completed := Overlay(t.completed, b.completed),
       updatedAt := now)
  }

  /** PUT /tasks/:id. `now` is the handler's reading of the clock. */
  function Update(s: seq<Task>, id: Id, b: Body, now: Timestamp): (r: Step)
    ensures !HasId(s, id) ==> r == Step(s, Failure(TaskNotFound))
    ensures HasId(s, id) ==>
              var k := FindIndex(s, id);
              && r.reply == Success(Merge(s[k], b, now))
              && |r.table| == |s|
              && r.table[k] == Merge(s[k], b, now)
              && forall j :: 0 <= j < |s| && j != k ==> r.table[j] == s[j]
  {
    var k := FindIndex(s, id);
    if k == -1 then Step(s, Failure(TaskNotFound))
    else
      var u := Merge(s[k], b, now);
      Step(s[k := u], Success(u))
  }

  /** DELETE /tasks/:id: `splice(k, 1)` at the first index holding `id`. */
  function Delete(s: seq<Task>, id: Id): (r: Step)
    ensures !HasId(s, id) ==> r == Step(s, Failure(TaskNotFound))
    ensures HasId(s, id) ==>
              var k := FindIndex(s, id);
              && r.reply == Success(s[k])
              && |r.table| == |s| - 1
              && (forall j :: 0 <= j < k ==> r.table[j] == s[j])
              && (forall j :: k <= j < |r.table| ==> r.table[j] == s[j + 1])
  {
    var k := FindIndex(s, id);
    if k == -1 then Step(s, Failure(TaskNotFound))
    else Step(s[..k] + s[k + 1..], Success(s[k]))
  }
}
