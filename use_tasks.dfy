/** src/hooks/useTasks.ts: the task list state (`tasks`, `loading`, `error`)
    and its transitions. Every remote call is a parameter: a function from the
    request to either the server's answer or the value it throws. */
module UseTasks {

  import opened Wrappers
  import opened TaskTypes
  import opened Seqs

  /** The list after a successful update: every task with `id` is replaced by the server's task. */
  function ReplaceById(ts: seq<Task>, id: int, updated: Task): (r: seq<Task>)
    ensures |r| == |ts|
    ensures forall k :: 0 <= k < |ts| ==> r[k] == if ts[k].id == id then updated else ts[k]
  {
    if ts == [] then []
    else [if ts[0].id == id then updated else ts[0]] + ReplaceById(ts[1..], id, updated)
  }

  predicate HasId(ts: seq<Task>, id: int) {
    exists k :: 0 <= k < |ts| && ts[k].id == id
  }

  /** Updating an id that no task has leaves the list as it was. */
  lemma ReplaceAbsent(ts: seq<Task>, id: int, updated: Task)
    requires !HasId(ts, id)
    ensures ReplaceById(ts, id, updated) == ts
  {
  }

  /** Applying the same update twice is applying it once. */
  lemma ReplaceIdempotent(ts: seq<Task>, id: int, updated: Task)
    ensures ReplaceById(ReplaceById(ts, id, updated), id, updated) == ReplaceById(ts, id, updated)
  {
  }

  function IdIsNot(id: int): Task -> bool {
    (t: Task) => t.id != id
  }

  /** The list after a successful delete: `prev.filter(task => task.id !== id)`. */
  function RemoveById(ts: seq<Task>, id: int): (r: seq<Task>)
    ensures !HasId(r, id)
    ensures forall t :: t in ts && t.id != id ==> t in r
    ensures forall t :: t in r ==> t in ts
  {
    Filter(ts, IdIsNot(id))
  }

  /** Deleting keeps the other tasks in their order and with their multiplicity. */
  lemma RemoveByIdKeepsOthers(ts: seq<Task>, id: int)
    ensures IsSubsequence(RemoveById(ts, id), ts)
    ensures forall t: Task :: t.id != id ==> multiset(RemoveById(ts, id))[t] == multiset(ts)[t]
  {
    FilterIsSubsequence(ts, IdIsNot(id));
    forall t: Task | t.id != id
      ensures multiset(RemoveById(ts, id))[t] == multiset(ts)[t]
    {
      FilterMultiplicity(ts, IdIsNot(id), t);
    }
  }

  /** `reorderTasks(startIndex, endIndex)` as a function of the previous list:
      the task at `startIndex` is spliced out and spliced back in at `endIndex`. */
  function Reorder(ts: seq<Task>, startIndex: nat, endIndex: nat): (r: seq<Task>)
    requires startIndex < |ts| && endIndex < |ts|
    ensures |r| == |ts|
    ensures multiset(r) == multiset(ts)
    ensures r[endIndex] == ts[startIndex]
    ensures RemoveAt(r, endIndex) == RemoveAt(ts, startIndex)
    ensures startIndex == endIndex ==> r == ts
  {
    if startIndex == endIndex then ts
    else
      var rest := RemoveAt(ts, startIndex);
      RemoveInserted(rest, endIndex, ts[startIndex]);
      InsertAt(rest, endIndex, ts[startIndex])
  }

  /** Reorder position by position: the tasks between the two indices shift by one toward the vacated slot. */
  lemma ReorderAt(ts: seq<Task>, startIndex: nat, endIndex: nat, k: nat)
    requires startIndex < |ts| && endIndex < |ts| && k < |ts|
    ensures var r := Reorder(ts, startIndex, endIndex);
      r[k] == if k == endIndex then ts[startIndex]
              else if startIndex < endIndex && startIndex <= k < endIndex then ts[k + 1]
              else if endIndex < startIndex && endIndex < k <= startIndex then ts[k - 1]
              else ts[k]
  {
  }

  /** Moving a task back to where it came from restores the list. */
  lemma ReorderInverse(ts: seq<Task>, startIndex: nat, endIndex: nat)
    requires startIndex < |ts| && endIndex < |ts|
    ensures Reorder(Reorder(ts, startIndex, endIndex), endIndex, startIndex) == ts
  {
    if startIndex != endIndex {
      var r := Reorder(ts, startIndex, endIndex);
      calc {
        Reorder(r, endIndex, startIndex);
        InsertAt(RemoveAt(r, endIndex), startIndex, r[endIndex]);
        InsertAt(RemoveAt(ts, startIndex), startIndex, ts[startIndex]);
        { InsertRemoved(ts, startIndex); }
        ts;
      }
    }
  }

  /** The state of one `useTasks()` instance. */
  class TaskListState {
    var tasks: seq<Task>
    var loading: bool
    var error: Option<string>

    /** The hook's first render: no tasks, loading, no error. */
    constructor ()
      ensures tasks == [] && loading && error == None
    {
      tasks := [];
      loading := true;
      error := None;
    }

    /** `fetchTasks` (also `refetch`): replace the list on success, record the
        message on failure, and always finish with `loading` false. */
    method FetchTasks(remote: Result<seq<Task>, Thrown>)
      modifies this
      ensures !loading
      ensures remote.Success? ==> tasks == remote.value && error == None
      ensures remote.Failure? ==> tasks == old(tasks) && error == Some(ErrorMessage(remote.error, "Failed to fetch tasks"))
    {
      loading := true;
      error := None;
      match remote {
        case Success(fetched) =>
          tasks := fetched;
        case Failure(err) =>
          error := Some(ErrorMessage(err, "Failed to fetch tasks"));
      }
      loading := false;
    }

    /** `addTask(taskData)`: prepend the created task, or record the error and rethrow it. */
    method AddTask(taskData: CreateTaskRequest, create: CreateTaskRequest -> Result<Task, Thrown>)
      returns (r: Result<Task, Thrown>)
      modifies this
      ensures r == create(taskData) && loading == old(loading)
      ensures r.Success? ==> tasks == [r.value] + old(tasks) && error == None
      ensures r.Failure? ==> tasks == old(tasks) && error == Some(ErrorMessage(r.error, "Failed to create task"))
    {
      error := None;
      r := create(taskData);
      match r {
        case Success(newTask) =>
          tasks := [newTask] + tasks;
        case Failure(err) =>
          error := Some(ErrorMessage(err, "Failed to create task"));
      }
    }

    /** `updateTask(id, updates)`: replace the tasks with that id by the server's
        task, or record the error and rethrow it. */
    method UpdateTask(id: int, updates: UpdateTaskRequest, update: (int, UpdateTaskRequest) -> Result<Task, Thrown>)
      returns (r: Result<Task, Thrown>)
      modifies this
      ensures r == update(id, updates) && loading == old(loading)
      ensures r.Success? ==> tasks == ReplaceById(old(tasks), id, r.value) && error == None
      ensures r.Failure? ==> tasks == old(tasks) && error == Some(ErrorMessage(r.error, "Failed to update task"))
    {
      error := None;
      r := update(id, updates);
      match r {
        case Success(updatedTask) =>
          tasks := ReplaceById(tasks, id, updatedTask);
        case Failure(err) =>
          error := Some(ErrorMessage(err, "Failed to update task"));
      }
    }

    /** `deleteTask(id)`: drop the tasks with that id, or record the error and rethrow it. */
    method DeleteTask(id: int, delete: int -> Result<Unit, Thrown>)
      returns (r: Result<Unit, Thrown>)
      modifies this
      ensures r == delete(id) && loading == old(loading)
      ensures r.Success? ==> tasks == RemoveById(old(tasks), id) && error == None
      ensures r.Failure? ==> tasks == old(tasks) && error == Some(ErrorMessage(r.error, "Failed to delete task"))
    {
      error := None;
      r := delete(id);
      match r {
        case Success(_) =>
          tasks := RemoveById(tasks, id);
        case Failure(err) =>
          error := Some(ErrorMessage(err, "Failed to delete task"));
      }
    }

    /** `toggleTask(id, completed)`: an update that sends only `completed`. */
    method ToggleTask(id: int, completed: bool, update: (int, UpdateTaskRequest) -> Result<Task, Thrown>)
      returns (r: Result<Task, Thrown>)
      modifies this
      ensures r == update(id, UpdateTaskRequest(None, Some(completed))) && loading == old(loading)
      ensures r.Success? ==> tasks == ReplaceById(old(tasks), id, r.value) && error == None
      ensures r.Failure? ==> tasks == old(tasks) && error == Some(ErrorMessage(r.error, "Failed to update task"))
    {
      r := UpdateTask(id, UpdateTaskRequest(None, Some(completed)), update);
    }

    /** `reorderTasks(startIndex, endIndex)`: purely local, no remote call. */
    method ReorderTasks(startIndex: nat, endIndex: nat)
      requires startIndex < |tasks| && endIndex < |tasks|
      modifies this
      ensures tasks == Reorder(old(tasks), startIndex, endIndex)
      ensures loading == old(loading) && error == old(error)
    {
      tasks := Reorder(tasks, startIndex, endIndex);
    }
  }
}
