/**
 * The task service's global array of tasks and its five request handlers.
 * The handlers change the array in place (`push`, an indexed assignment,
 * `splice`); each method here does the same to the `tasks` field and is
 * proved to leave exactly the table, and give exactly the reply, that the
 * corresponding function of `TaskTable` describes.
 */
module TaskServer {
  import opened Wrappers
  import opened Json
  import opened TaskTable
  import TaskProperties

  class TaskStore {
    /** The live tasks, in creation order. */
    var tasks: seq<Task>

    /** Identifiers are unique: every id the service hands out is fresh. */
    ghost predicate Valid()
      reads this
    {
      UniqueIds(tasks)
    }

    /** The service starts with no tasks. */
    constructor ()
      ensures Valid() && tasks == []
    {
      tasks := [];
    }

    /**
     * POST /tasks. `id` is the freshly generated identifier, `createdAt` and
     * `updatedAt` the two clock readings.
     */
    method CreateTask(b: Body, id: Id, createdAt: Timestamp, updatedAt: Timestamp)
      returns (reply: Result<Task, Error>)
      requires Valid() && !HasId(tasks, id)
      modifies this
      ensures Valid()
      ensures Step(tasks, reply) == Create(old(tasks), b, id, createdAt, updatedAt)
    {
      TaskProperties.CreatePreservesUniqueIds(tasks, b, id, createdAt, updatedAt);
      if !Truthy(b.title) {
        return Failure(TitleRequired);
      }
      var completed := DefaultIfUndefined(b.completed, Bool(false));
      if !completed.Bool? {
        return Failure(CompletedNotBoolean);
      }
      var t := Task(id, b.title, Or(b.description, Str("")), completed, createdAt, updatedAt);
      tasks := tasks + [t];
      reply := Success(t);
    }

    /** GET /tasks, with the `completed` query parameter. */
    method ListTasks(query: Value) returns (listing: Listing)
      ensures listing == List(tasks, query)
    {
      var filtered := tasks;
      if !query.Undefined? {
        var isCompleted := query == Str("true");
        filtered := Filter(tasks, isCompleted);
      }
      listing := Listing(filtered, |filtered|);
    }

    /** GET /tasks/:id. */
    method GetTask(id: Id) returns (reply: Result<Task, Error>)
      ensures reply == Get(tasks, id)
    {
      var task := Find(tasks, id);
      if task.None? {
        return Failure(TaskNotFound);
      }
      FindAtFindIndex(tasks, id);
      reply := Success(task.value);
    }

    /** PUT /tasks/:id. `now` is the clock reading stored as `updatedAt`. */
    method UpdateTask(id: Id, b: Body, now: Timestamp) returns (reply: Result<Task, Error>)
      requires Valid()
      modifies this
      ensures Valid()
      ensures Step(tasks, reply) == Update(old(tasks), id, b, now)
    {
      TaskProperties.UpdatePreservesUniqueIds(tasks, id, b, now);
      var taskIndex := FindIndex(tasks, id);
      if taskIndex == -1 {
        return Failure(TaskNotFound);
      }
      var updatedTask := Merge(tasks[taskIndex], b, now);
      tasks := tasks[taskIndex := updatedTask];
      reply := Success(updatedTask);
    }

    /** DELETE /tasks/:id. */
    method DeleteTask(id: Id) returns (reply: Result<Task, Error>)
      requires Valid()
      modifies this
      ensures Valid()
      ensures Step(tasks, reply) == Delete(old(tasks), id)
    {
      TaskProperties.DeletePreservesUniqueIds(tasks, id);
      var taskIndex := FindIndex(tasks, id);
      if taskIndex == -1 {
        return Failure(TaskNotFound);
      }
      var deletedTask := tasks[taskIndex];
      tasks := tasks[..taskIndex] + tasks[taskIndex + 1..];
      reply := Success(deletedTask);
    }
  }

  /**
   * A session on one store: create "Buy milk", mark it completed, delete it;
   * afterwards the id is unknown again.
   */
  method Session(id: Id, t0: Timestamp, t1: Timestamp)
  {
    var store := new TaskStore();
    var created := store.CreateTask(Body(Str("Buy milk"), Undefined, Undefined), id, t0, t0);
    assert created == Success(Task(id, Str("Buy milk"), Str(""), Bool(false), t0, t0));
    var updated := store.UpdateTask(id, Body(Undefined, Undefined, Bool(true)), t1);
    assert updated == Success(Task(id, Str("Buy milk"), Str(""), Bool(true), t0, t1));
    var deleted := store.DeleteTask(id);
    assert deleted == updated;
    var missing := store.GetTask(id);
    assert missing == Failure(TaskNotFound);
  }
}
