/** src/App.tsx: the handlers that connect the task list, the filter and the
    task→category map. */
module App {

  import opened Wrappers
  import opened TaskTypes
  import opened TaskStorage
  import opened UseTasks
  import opened TaskFilter

  /** `ts.findIndex(t => t.id === id)`: the first position holding that id, or -1. */
  function FindIndexById(ts: seq<Task>, id: int): (r: int)
    ensures -1 <= r < |ts|
    ensures r == -1 <==> !HasId(ts, id)
    ensures r >= 0 ==> ts[r].id == id && forall k :: 0 <= k < r ==> ts[k].id != id
  {
    if ts == [] then -1
    else if ts[0].id == id then 0
    else
      var k := FindIndexById(ts[1..], id);
      if k == -1 then -1 else k + 1
  }

  predicate UniqueIds(ts: seq<Task>) {
    forall i, j :: 0 <= i < |ts| && 0 <= j < |ts| && ts[i].id == ts[j].id ==> i == j
  }

  /** `handleReorder`'s translation of a position in the shown list into a position in the full list. */
  function OriginalIndex(tasks: seq<Task>, shown: seq<Task>, i: nat): int
    requires i < |shown|
  {
    FindIndexById(tasks, shown[i].id)
  }

  /** A shown task is found in the full list, at a position holding its id;
      with unique ids it is the very same task. */
  lemma OriginalIndexFindsTask(tasks: seq<Task>, shown: seq<Task>, i: nat)
    requires forall t :: t in shown ==> t in tasks
    requires i < |shown|
    ensures 0 <= OriginalIndex(tasks, shown, i) < |tasks|
    ensures tasks[OriginalIndex(tasks, shown, i)].id == shown[i].id
    ensures UniqueIds(tasks) ==> tasks[OriginalIndex(tasks, shown, i)] == shown[i]
  {
    assert shown[i] in tasks;
    var k :| 0 <= k < |tasks| && tasks[k] == shown[i];
    assert HasId(tasks, shown[i].id);
  }

  /** The request `handleAddTask(todo)` sends. */
  function AddRequest(todo: string): CreateTaskRequest
  {
    CreateTaskRequest(todo, Some(false), Some(1))
  }

  /** The request `handleUpdateTask(id, todo)` sends: the text only. */
  function TextUpdate(todo: string): UpdateTaskRequest
  {
    UpdateTaskRequest(Some(todo), None)
  }

  /** The App component's own state and the hooks it drives. */
  class AppState {
    const taskList: TaskListState
    const store: Store
    var taskCategoryMap: map<int, string>
    var filterStatus: FilterStatus
    var searchQuery: string

    /** First render: the category map is read from the store; the filter shows everything. */
    constructor (store: Store)
      ensures this.store == store && fresh(taskList)
      ensures taskList.tasks == [] && taskList.loading && taskList.error == None
      ensures taskCategoryMap == TaskCategories(store.items)
      ensures filterStatus == All && searchQuery == ""
    {
      this.store := store;
      taskList := new TaskListState();
      taskCategoryMap := TaskCategories(store.items);
      filterStatus := All;
      searchQuery := "";
    }

    /** `filteredTasks` for the current state. */
    function Shown(): seq<Task>
      reads this, taskList
    {
      FilteredTasks(taskList.tasks, filterStatus, searchQuery)
    }

    /** `handleCategoryChange(taskId, categoryId)`: persist the change, then apply
        the same set-or-delete to the in-memory map. */
    method HandleCategoryChange(taskId: int, categoryId: Option<string>)
      modifies this, store
      ensures taskCategoryMap == AssignOrDelete(old(taskCategoryMap), taskId, categoryId)
      ensures store.acceptsWrites == old(store.acceptsWrites)
      ensures store.items == if store.acceptsWrites then WithEntry(old(store.items), CategoryStorageKey, taskId, categoryId) else old(store.items)
      ensures old(taskCategoryMap) == TaskCategories(old(store.items)) && store.acceptsWrites ==>
        taskCategoryMap == TaskCategories(store.items)
      ensures filterStatus == old(filterStatus) && searchQuery == old(searchQuery)
    {
      SetTaskCategory(store, taskId, categoryId);
      taskCategoryMap := AssignOrDelete(taskCategoryMap, taskId, categoryId);
    }

    /** `handleAddTask(todo)`: creates an open task owned by user 1. */
    method HandleAddTask(todo: string, create: CreateTaskRequest -> Result<Task, Thrown>)
      returns (r: Result<Task, Thrown>)
      modifies taskList
      ensures r == create(AddRequest(todo)) && taskList.loading == old(taskList.loading)
      ensures r.Success? ==> taskList.tasks == [r.value] + old(taskList.tasks) && taskList.error == None
      ensures r.Failure? ==> taskList.tasks == old(taskList.tasks) && taskList.error == Some(ErrorMessage(r.error, "Failed to create task"))
    {
      r := taskList.AddTask(AddRequest(todo), create);
    }

    /** `handleUpdateTask(id, todo)`: sends only the new text. */
    method HandleUpdateTask(id: int, todo: string, update: (int, UpdateTaskRequest) -> Result<Task, Thrown>)
      returns (r: Result<Task, Thrown>)
      modifies taskList
      ensures r == update(id, TextUpdate(todo)) && taskList.loading == old(taskList.loading)
      ensures r.Success? ==> taskList.tasks == ReplaceById(old(taskList.tasks), id, r.value) && taskList.error == None
      ensures r.Failure? ==> taskList.tasks == old(taskList.tasks) && taskList.error == Some(ErrorMessage(r.error, "Failed to update task"))
    {
      r := taskList.UpdateTask(id, TextUpdate(todo), update);
    }

    /** `handleReorder(startIndex, endIndex)`: positions in the shown list are
        translated to positions in the full list by task id, then reordered. */
    method HandleReorder(startIndex: nat, endIndex: nat)
      requires startIndex < |Shown()| && endIndex < |Shown()|
      modifies taskList
      ensures var from, to := OriginalIndex(old(taskList.tasks), old(Shown()), startIndex), OriginalIndex(old(taskList.tasks), old(Shown()), endIndex);
        0 <= from < |old(taskList.tasks)| && 0 <= to < |old(taskList.tasks)| &&
        taskList.tasks == Reorder(old(taskList.tasks), from, to) &&
        (UniqueIds(old(taskList.tasks)) ==> taskList.tasks[to] == old(Shown())[startIndex])
      ensures taskList.loading == old(taskList.loading) && taskList.error == old(taskList.error)
    {
      var shown := Shown();
      OriginalIndexFindsTask(taskList.tasks, shown, startIndex);
      OriginalIndexFindsTask(taskList.tasks, shown, endIndex);
      var from := OriginalIndex(taskList.tasks, shown, startIndex);
      var to := OriginalIndex(taskList.tasks, shown, endIndex);
      taskList.ReorderTasks(from, to);
    }
  }
}
