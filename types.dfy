/** The records of src/types/task.ts and src/types/category.ts, and the shape of
    a thrown JavaScript value as the hooks inspect it. */
module TaskTypes {

  import opened Wrappers

  /** A to-do item; `id` is its identity. Optional fields are `Option`s. */
  datatype Task = Task(
    id: int,
    todo: string,
    completed: bool,
    userId: int,
    categoryId: Option<string>,
    dueDate: Option<string>)

  /** The body of a create call: text, and optionally completion and owner. */
  datatype CreateTaskRequest = CreateTaskRequest(todo: string, completed: Option<bool>, userId: Option<int>)

  /** The body of an update call: each field is sent only when present. */
  datatype UpdateTaskRequest = UpdateTaskRequest(todo: Option<string>, completed: Option<bool>)

  datatype Category = Category(id: string, name: string, color: string)

  /** `Partial<Category>`: the fields an update overwrites. */
  datatype CategoryUpdate = CategoryUpdate(id: Option<string>, name: Option<string>, color: Option<string>)

  const DefaultCategories: seq<Category> := [
    Category("1", "Work", "#3B82F6"),
    Category("2", "Personal", "#10B981"),
    Category("3", "Shopping", "#F59E0B"),
    Category("4", "Health", "#EF4444"),
    Category("5", "Other", "#8B5CF6")
  ]

  /** A thrown value: an `Error` instance carries a message; anything else does not. */
  datatype Thrown = ErrorObject(message: string) | OtherValue

  /** `err instanceof Error ? err.message : fallback` */
  function ErrorMessage(e: Thrown, fallback: string): (m: string)
    ensures e.ErrorObject? ==> m == e.message
    ensures e.OtherValue? ==> m == fallback
  {
    match e
    case ErrorObject(msg) => msg
    case OtherValue => fallback
  }

  /** JavaScript truthiness of an optional string: present and non-empty. */
  predicate Truthy(s: Option<string>) {
    s.Some? && s.value != ""
  }
}
