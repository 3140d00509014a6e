/** src/utils/taskStorage.ts: the task→category and task→due-date maps and the
    task backup, kept as whole values under fixed keys of the browser's
    key-value store.

    The store is a class whose `items` map keys to stored values. A stored value
    is either raw text or the serialized form of one of the shapes the program
    writes; `JSON.stringify` is the constructor and `JSON.parse` is the match
    that recovers the shape. Text that is not a serialized value of the shape a
    reader expects (including empty text) reads as absent. */
module TaskStorage {

  import opened Wrappers
  import opened TaskTypes

  /** What one key of the store holds. */
  datatype Stored =
    | Text(s: string)
    | IdMap(m: map<int, string>)
    | TaskList(ts: seq<Task>)
    | CategoryList(cs: seq<Category>)

  const CategoryStorageKey: string := "task-manager-task-categories"
  const DueDateStorageKey: string := "task-manager-task-due-dates"
  const TasksStorageKey: string := "task-manager-tasks"

  /** The browser's key-value store. A write to a store that does not accept
      writes (quota exceeded, storage disabled) throws and changes nothing. */
  class Store {
    var items: map<string, Stored>
    var acceptsWrites: bool

    constructor (items: map<string, Stored>, acceptsWrites: bool)
      ensures this.items == items && this.acceptsWrites == acceptsWrites
    {
      this.items := items;
      this.acceptsWrites := acceptsWrites;
    }

    /** `localStorage.setItem(key, v)`; `ok` is false when the write threw. */
    method SetItem(key: string, v: Stored) returns (ok: bool)
      modifies this
      ensures ok == acceptsWrites && acceptsWrites == old(acceptsWrites)
      ensures items == if ok then old(items)[key := v] else old(items)
    {
      ok := acceptsWrites;
      if ok {
        items := items[key := v];
      }
    }
  }

  /** Reads an id→string map: the stored map, or `{}` when the key is absent or
      its value does not parse as a map. */
  function ReadIdMap(items: map<string, Stored>, key: string): (m: map<int, string>)
    ensures key in items && items[key].IdMap? ==> m == items[key].m
    ensures !(key in items && items[key].IdMap?) ==> m == map[]
  {
    match Get<string, Stored>(items, key)
    case Some(IdMap(m)) => m
    case _ => map[]
  }

  /** The in-place edit both setters and the App's category handler perform:
      `map[id] = v` when `v` is truthy, `delete map[id]` otherwise. */
  function AssignOrDelete(m: map<int, string>, id: int, v: Option<string>): (r: map<int, string>)
    ensures Truthy(v) ==> id in r && r[id] == v.value
    ensures !Truthy(v) ==> id !in r
    ensures forall k :: k != id ==> (k in r <==> k in m)
    ensures forall k :: k != id && k in m ==> r[k] == m[k]
  {
    if Truthy(v) then m[id := v.value] else m - {id}
  }

  /** The store after `setTaskCategory` / `setTaskDueDate` under `key`, when the write succeeds. */
  function WithEntry(items: map<string, Stored>, key: string, id: int, v: Option<string>): map<string, Stored> {
    items[key := IdMap(AssignOrDelete(ReadIdMap(items, key), id, v))]
  }

  /** `getTaskCategories()` */
  function TaskCategories(items: map<string, Stored>): map<int, string> {
    ReadIdMap(items, CategoryStorageKey)
  }

  /** `getTaskCategory(taskId)` */
  function TaskCategory(items: map<string, Stored>, taskId: int): (r: Option<string>)
    ensures r.Some? <==> taskId in TaskCategories(items)
  {
    var m := TaskCategories(items);
    if taskId in m then Some(m[taskId]) else None
  }

  /** `getTaskDueDates()` */
  function TaskDueDates(items: map<string, Stored>): map<int, string> {
    ReadIdMap(items, DueDateStorageKey)
  }

  /** `getTaskDueDate(taskId)` */
  function TaskDueDate(items: map<string, Stored>, taskId: int): (r: Option<string>)
    ensures r.Some? <==> taskId in TaskDueDates(items)
  {
    var m := TaskDueDates(items);
    if taskId in m then Some(m[taskId]) else None
  }

  /** `setTaskCategory(taskId, categoryId)`: read, edit, write back; a failed
      write is swallowed. */
  method SetTaskCategory(store: Store, taskId: int, categoryId: Option<string>)
    modifies store
    ensures store.acceptsWrites == old(store.acceptsWrites)
    ensures store.items == if store.acceptsWrites then WithEntry(old(store.items), CategoryStorageKey, taskId, categoryId) else old(store.items)
  {
    var m := TaskCategories(store.items);
    m := AssignOrDelete(m, taskId, categoryId);
    var _ := store.SetItem(CategoryStorageKey, IdMap(m));
  }

  /** `setTaskDueDate(taskId, dueDate)` */
  method SetTaskDueDate(store: Store, taskId: int, dueDate: Option<string>)
    modifies store
    ensures store.acceptsWrites == old(store.acceptsWrites)
    ensures store.items == if store.acceptsWrites then WithEntry(old(store.items), DueDateStorageKey, taskId, dueDate) else old(store.items)
  {
    var m := TaskDueDates(store.items);
    m := AssignOrDelete(m, taskId, dueDate);
    var _ := store.SetItem(DueDateStorageKey, IdMap(m));
  }

  /** `getStoredTasks()`: the backed-up list, or `[]` when absent or unparseable. */
  function StoredTasks(items: map<string, Stored>): (ts: seq<Task>)
    ensures TasksStorageKey in items && items[TasksStorageKey].TaskList? ==> ts == items[TasksStorageKey].ts
    ensures !(TasksStorageKey in items && items[TasksStorageKey].TaskList?) ==> ts == []
  {
    match Get<string, Stored>(items, TasksStorageKey)
    case Some(TaskList(ts)) => ts
    case _ => []
  }

  /** `setStoredTasks(tasks)` */
  method SetStoredTasks(store: Store, tasks: seq<Task>)
    modifies store
    ensures store.acceptsWrites == old(store.acceptsWrites)
    ensures store.items == if store.acceptsWrites then old(store.items)[TasksStorageKey := TaskList(tasks)] else old(store.items)
  {
    var _ := store.SetItem(TasksStorageKey, TaskList(tasks));
  }

  /** Set, then get: a truthy value is read back; a falsy one reads as absent. */
  lemma SetThenGetEntry(items: map<string, Stored>, key: string, id: int, v: Option<string>)
    ensures var m := ReadIdMap(WithEntry(items, key, id, v), key);
      (Truthy(v) ==> id in m && m[id] == v.value) && (!Truthy(v) ==> id !in m)
  {
  }

  /** Setting one task's entry leaves every other task's entry, and every other key, as it was. */
  lemma SetEntryFrame(items: map<string, Stored>, key: string, id: int, v: Option<string>, other: int, otherKey: string)
    requires other != id && otherKey != key
    ensures var m, m' := ReadIdMap(items, key), ReadIdMap(WithEntry(items, key, id, v), key);
      (other in m' <==> other in m) && (other in m ==> m'[other] == m[other])
    ensures Get(WithEntry(items, key, id, v), otherKey) == Get(items, otherKey)
  {
  }

  /** Setting the same entry twice is setting it once. */
  lemma SetEntryIdempotent(items: map<string, Stored>, key: string, id: int, v: Option<string>)
    ensures WithEntry(WithEntry(items, key, id, v), key, id, v) == WithEntry(items, key, id, v)
  {
    var once := AssignOrDelete(ReadIdMap(items, key), id, v);
    assert AssignOrDelete(once, id, v) == once;
  }

  /** `setTaskCategory` then `getTaskCategory` on the same task. */
  lemma CategoryRoundTrip(items: map<string, Stored>, taskId: int, categoryId: Option<string>)
    ensures Truthy(categoryId) ==> TaskCategory(WithEntry(items, CategoryStorageKey, taskId, categoryId), taskId) == categoryId
    ensures !Truthy(categoryId) ==> TaskCategory(WithEntry(items, CategoryStorageKey, taskId, categoryId), taskId) == None
  {
    SetThenGetEntry(items, CategoryStorageKey, taskId, categoryId);
  }

  /** `setTaskDueDate` then `getTaskDueDate` on the same task. */
  lemma DueDateRoundTrip(items: map<string, Stored>, taskId: int, dueDate: Option<string>)
    ensures Truthy(dueDate) ==> TaskDueDate(WithEntry(items, DueDateStorageKey, taskId, dueDate), taskId) == dueDate
    ensures !Truthy(dueDate) ==> TaskDueDate(WithEntry(items, DueDateStorageKey, taskId, dueDate), taskId) == None
  {
    SetThenGetEntry(items, DueDateStorageKey, taskId, dueDate);
  }

  /** An id→string map that is missing, or stored as text that does not parse as
      one, reads as `{}`: the task has neither a category nor a due date. */
  lemma UnreadableIdMapIsEmpty(items: map<string, Stored>, key: string, text: string, taskId: int)
    ensures ReadIdMap(items[key := Text(text)], key) == map[]
    ensures ReadIdMap(items - {key}, key) == map[]
    ensures TaskCategory(items[CategoryStorageKey := Text(text)], taskId) == None
    ensures TaskDueDate(items - {DueDateStorageKey}, taskId) == None
  {
  }

  /** The three namespaces live under distinct keys: writing one of them leaves
      what the other two read unchanged. */
  lemma NamespacesIndependent(items: map<string, Stored>, v: Stored)
    ensures TaskCategories(items[DueDateStorageKey := v]) == TaskCategories(items)
    ensures TaskCategories(items[TasksStorageKey := v]) == TaskCategories(items)
    ensures TaskDueDates(items[CategoryStorageKey := v]) == TaskDueDates(items)
    ensures TaskDueDates(items[TasksStorageKey := v]) == TaskDueDates(items)
    ensures StoredTasks(items[CategoryStorageKey := v]) == StoredTasks(items)
    ensures StoredTasks(items[DueDateStorageKey := v]) == StoredTasks(items)
  {
  }

  /** A task backup that is missing, or stored as text that does not parse as a
      task list, reads as `[]`. */
  lemma UnreadableTasksAreEmpty(items: map<string, Stored>, text: string)
    ensures StoredTasks(items[TasksStorageKey := Text(text)]) == []
    ensures StoredTasks(items - {TasksStorageKey}) == []
  {
  }

  /** Writing a task list, then reading the backup, gives the list back. */
  lemma StoredTasksRoundTrip(items: map<string, Stored>, tasks: seq<Task>)
    ensures StoredTasks(items[TasksStorageKey := TaskList(tasks)]) == tasks
  {
  }
}
