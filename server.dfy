/**
 * The task server's handlers as they run: one object owns the `tasks` list
 * and the `nextId` counter that the handlers update in place. Each method is
 * proved to have exactly the effect and reply of the matching function of
 * module Store, so the properties proved there hold of these methods.
 */
module Server {
  import opened Wrappers
  import opened Text
  import opened Api
  import Store

  class TaskStore {
    var tasks: seq<Task>
    var nextId: int

    /** The abstract value of the object. */
    function State(): Store.State
      reads this
    {
      Store.State(tasks, nextId)
    }

    ghost predicate Valid()
      reads this
    {
      Store.Valid(State())
    }

    /** `let tasks = []`, `let nextId = 1`. */
    constructor ()
      ensures Valid() && State() == Store.Initial()
    {
      tasks := [];
      nextId := 1;
    }

    /** `tasks.findIndex(t => t.id === id)`: a left-to-right scan for the first match. */
    method FindIndex(id: Option<int>) returns (index: int)
      ensures index == Store.IndexOf(tasks, id)
      ensures index == -1 || (0 <= index < |tasks| && tasks[index].id == id.value)
    {
      var i := 0;
      while i < |tasks|
        invariant 0 <= i <= |tasks|
        invariant forall j :: 0 <= j < i ==> !Store.Matches(tasks[j], id)
      {
        if Store.Matches(tasks[i], id) {
          IndexOfIsFirst(tasks, id, i);
          return i;
        }
        i := i + 1;
      }
      return -1;
    }

    /** GET /api/todos. */
    method List() returns (r: Reply<seq<Task>>)
      ensures r == Store.List(State()).reply
      ensures r.status == 200 && r.body.data == Some(tasks)
    {
      r := Ok(200, tasks);
    }

    /** POST /api/todos with body field `task` and the clock reading `now`. */
    method Create(task: Option<string>, now: string) returns (r: Reply<Task>)
      requires Valid()
      modifies this
      ensures Valid()
      ensures Store.Outcome(State(), r) == Store.Create(old(State()), task, now)
    {
      if task.None? || Trim(task.value) == [] {
        return Fail(400, Store.RequiredField);
      }
      var newTask := Task(nextId, Trim(task.value), false, now);
      nextId := nextId + 1;
      tasks := tasks + [newTask];
      r := Ok(201, newTask);
    }

    /** PUT /api/todos/:id with the patch fields that are present. */
    method Update(id: Option<int>, patch: Store.Patch) returns (r: Reply<Task>)
      requires Valid()
      modifies this
      ensures Valid()
      ensures Store.Outcome(State(), r) == Store.Update(old(State()), id, patch)
    {
      var i := FindIndex(id);
      if i == -1 {
        return Fail(404, Store.TaskNotFound);
      }
      var task := tasks[i];
      if patch.task.Some? {
        task := task.(task := Trim(patch.task.value));
      }
      if patch.completed.Some? {
        task := task.(completed := patch.completed.value);
      }
      tasks := tasks[i := task];
      r := Ok(200, task);
    }

    /** DELETE /api/todos/:id. */
    method Delete(id: Option<int>) returns (r: Reply<Task>)
      requires Valid()
      modifies this
      ensures Valid()
      ensures Store.Outcome(State(), r) == Store.Delete(old(State()), id)
    {
      var index := FindIndex(id);
      if index == -1 {
        return Fail(404, Store.TaskNotFound);
      }
      var deletedTask := tasks[index];
      tasks := tasks[..index] + tasks[index + 1..];
      r := Ok(200, deletedTask);
    }
  }

  /** A match at `i` with none before it is what IndexOf finds. */
  lemma {:induction false} IndexOfIsFirst(tasks: seq<Task>, id: Option<int>, i: int)
    requires 0 <= i < |tasks| && Store.Matches(tasks[i], id)
    requires forall j :: 0 <= j < i ==> !Store.Matches(tasks[j], id)
    ensures Store.IndexOf(tasks, id) == i
  {
  }
}
