/** src/components/Statistics.tsx: the figures computed inside `useMemo`.
    Dates are whole day numbers; `dayOf` stands for `new Date(text)` followed by
    `setHours(0, 0, 0, 0)`, and is `None` for text that is not a date. */
module Statistics {

  import opened Wrappers
  import opened TaskTypes
  import opened Seqs

  /** One row of the per-category breakdown. */
  datatype Bucket = Bucket(category: string, color: string, total: nat, completed: nat, active: nat)

  datatype Stats = Stats(
    total: nat,
    completed: nat,
    active: int,
    completionRate: int,
    tasksByCategory: seq<Bucket>,
    overdue: nat,
    dueToday: nat,
    dueThisWeek: nat,
    withDueDate: nat,
    withoutDueDate: int)

  const UncategorizedName := "Uncategorized"
  const UncategorizedColor := "#6B7280"

  predicate IsDone(t: Task) { t.completed }

  predicate IsActive(t: Task) { !t.completed }

  /** The counts of a group of tasks; every task is either completed or active. */
  function MakeBucket(name: string, color: string, ts: seq<Task>): (b: Bucket)
    ensures b.category == name && b.color == color && b.total == |ts|
    ensures b.completed == Count(ts, IsDone) && b.active == Count(ts, IsActive)
    ensures b.completed + b.active == b.total
  {
    CountComplement(ts, IsDone, IsActive);
    Bucket(name, color, |ts|, Count(ts, IsDone), Count(ts, IsActive))
  }

  /** `taskCategoryMap[t.id] === categoryId` */
  function InCategory(taskCategoryMap: map<int, string>, categoryId: string): Task -> bool {
    (t: Task) => t.id in taskCategoryMap && taskCategoryMap[t.id] == categoryId
  }

  /** `!taskCategoryMap[t.id]`: no entry, or an empty one. */
  function Uncategorized(taskCategoryMap: map<int, string>): Task -> bool {
    (t: Task) => !Truthy(Get(taskCategoryMap, t.id))
  }

  /** `categories.map(...)`: one bucket per category, in category order, counting
      the tasks mapped to that category's id. */
  function CategoryBuckets(tasks: seq<Task>, categories: seq<Category>, taskCategoryMap: map<int, string>): (r: seq<Bucket>)
    ensures |r| == |categories|
    ensures forall i :: 0 <= i < |r| ==>
      r[i].category == categories[i].name && r[i].color == categories[i].color &&
      r[i].total == Count(tasks, InCategory(taskCategoryMap, categories[i].id)) &&
      r[i].completed == Count(Filter(tasks, InCategory(taskCategoryMap, categories[i].id)), IsDone) &&
      r[i].active == Count(Filter(tasks, InCategory(taskCategoryMap, categories[i].id)), IsActive) &&
      r[i].completed + r[i].active == r[i].total
  {
    if categories == [] then []
    else
      var c := categories[0];
      var b := MakeBucket(c.name, c.color, Filter(tasks, InCategory(taskCategoryMap, c.id)));
      var rest := CategoryBuckets(tasks, categories[1..], taskCategoryMap);
      assert b.total == Count(tasks, InCategory(taskCategoryMap, c.id));
      var r := [b] + rest;
      assert forall i :: 1 <= i < |r| ==> r[i] == rest[i - 1] && categories[i] == categories[1..][i - 1];
      r
  }

  /** The bucket pushed after the category buckets. */
  function UncategorizedBucket(tasks: seq<Task>, taskCategoryMap: map<int, string>): (b: Bucket)
    ensures b.category == UncategorizedName && b.color == UncategorizedColor
    ensures b.total == Count(tasks, Uncategorized(taskCategoryMap))
    ensures b.completed == Count(Filter(tasks, Uncategorized(taskCategoryMap)), IsDone)
    ensures b.active == Count(Filter(tasks, Uncategorized(taskCategoryMap)), IsActive)
    ensures b.completed + b.active == b.total
  {
    MakeBucket(UncategorizedName, UncategorizedColor, Filter(tasks, Uncategorized(taskCategoryMap)))
  }

  predicate NonEmpty(b: Bucket) { b.total > 0 }

  /** `tasksByCategory.filter(c => c.total > 0)` after the push. */
  function EmittedBuckets(tasks: seq<Task>, categories: seq<Category>, taskCategoryMap: map<int, string>): (r: seq<Bucket>)
    ensures forall i :: 0 <= i < |r| ==> r[i].total > 0 && r[i].completed + r[i].active == r[i].total
  {
    var all := CategoryBuckets(tasks, categories, taskCategoryMap) + [UncategorizedBucket(tasks, taskCategoryMap)];
    assert forall b :: b in all ==> b.completed + b.active == b.total;
    Filter(all, NonEmpty)
  }

  /** The emitted buckets are the non-empty category buckets in category order,
      followed by the Uncategorized bucket when it is non-empty. */
  lemma EmittedOrder(tasks: seq<Task>, categories: seq<Category>, taskCategoryMap: map<int, string>)
    ensures var u := UncategorizedBucket(tasks, taskCategoryMap);
      EmittedBuckets(tasks, categories, taskCategoryMap) ==
        Filter(CategoryBuckets(tasks, categories, taskCategoryMap), NonEmpty) + (if u.total > 0 then [u] else [])
  {
    var u := UncategorizedBucket(tasks, taskCategoryMap);
    FilterAppend(CategoryBuckets(tasks, categories, taskCategoryMap), [u], NonEmpty);
    assert Filter([u], NonEmpty) == (if u.total > 0 then [u] else []) by {
      assert [u][1..] == [];
    }
  }

  /** Exactly the buckets with a positive total are emitted: none is dropped,
      none is added, and their order is kept. */
  lemma EmittedExactlyNonEmpty(tasks: seq<Task>, categories: seq<Category>, taskCategoryMap: map<int, string>)
    ensures var all := CategoryBuckets(tasks, categories, taskCategoryMap) + [UncategorizedBucket(tasks, taskCategoryMap)];
      var r := EmittedBuckets(tasks, categories, taskCategoryMap);
      IsSubsequence(r, all) && forall b :: b in r <==> b in all && b.total > 0
  {
    var all := CategoryBuckets(tasks, categories, taskCategoryMap) + [UncategorizedBucket(tasks, taskCategoryMap)];
    FilterIsSubsequence(all, NonEmpty);
  }

  /** A task with a non-empty category id is never counted as uncategorized, and
      an uncategorized task is counted in no bucket of a category with a non-empty id. */
  lemma UncategorizedIsDisjoint(taskCategoryMap: map<int, string>, categoryId: string, t: Task)
    requires categoryId != ""
    ensures !(InCategory(taskCategoryMap, categoryId)(t) && Uncategorized(taskCategoryMap)(t))
  {
    if InCategory(taskCategoryMap, categoryId)(t) {
      assert Get(taskCategoryMap, t.id) == Some(categoryId);
    }
  }

  /** `Math.round((completed / total) * 100)`, or 0 without tasks, computed exactly
      with halves rounded up: the result is the integer nearest to 100·completed/total. */
  function CompletionRate(completed: nat, total: nat): (r: int)
    requires completed <= total
    ensures total == 0 ==> r == 0
    ensures total > 0 ==> -(total as int) < 2 * (r * total - 100 * completed) <= total
    ensures 0 <= r <= 100
  {
    if total == 0 then 0
    else
      HalfUpBounds(completed, total);
      (200 * completed + total) / (2 * total)
  }

  /** A multiple of `t` by a factor of at least one is at least `t`, and one by a
      factor of at most minus one is at most `-t`. */
  lemma MultipleBounds(d: int, t: int)
    requires t >= 0
    ensures d >= 1 ==> d * t >= t
    ensures d <= -1 ==> d * t <= -t
  {
    if d >= 1 {
      assert (d - 1) * t >= 0;
    } else if d <= -1 {
      assert (-d - 1) * t >= 0;
    }
  }

  /** The quotient `(200·completed + total) div (2·total)` lies within half a step
      of 100·completed/total and between 0 and 100. */
  lemma HalfUpBounds(completed: nat, total: nat)
    requires completed <= total && total > 0
    ensures var r := (200 * completed + total) / (2 * total);
      -(total as int) < 2 * (r * total - 100 * completed) <= total && 0 <= r <= 100
  {
    var n := 200 * completed + total;
    var d := 2 * total;
    var r := n / d;
    var m := n % d;
    assert n == r * d + m && 0 <= m < d;
    var x := r * total;
    assert r * d == 2 * x;
    assert 2 * (x - 100 * completed) == total - m;
    MultipleBounds(r, total);
    var y := (r - 100) * total;
    assert y == x - 100 * total;
    MultipleBounds(r - 100, total);
  }

  /** Only one integer lies that close to 100·completed/total. */
  lemma CompletionRateUnique(completed: nat, total: nat, q: int)
    requires completed <= total && total > 0
    requires -(total as int) < 2 * (q * total - 100 * completed) <= total
    ensures q == CompletionRate(completed, total)
  {
    var r := CompletionRate(completed, total);
    var x := r * total;
    var y := q * total;
    assert (r - q) * total == x - y;
    if r != q {
      MultipleBounds(r - q, total);
    }
  }

  /** The due day of an incomplete task whose map entry is truthy; `None`
      for the others, which the three due buckets all skip. */
  function PendingDueDay(taskDueDateMap: map<int, string>, dayOf: string -> Option<int>, t: Task): Option<int> {
    var dueDate := Get(taskDueDateMap, t.id);
    if !Truthy(dueDate) || t.completed then None else dayOf(dueDate.value)
  }

  /** `due < today`: only an incomplete task with a due date can be overdue. */
  predicate Overdue(taskDueDateMap: map<int, string>, dayOf: string -> Option<int>, today: int, t: Task)
    ensures Overdue(taskDueDateMap, dayOf, today, t) ==> !t.completed && HasDueDate(taskDueDateMap, t)
  {
    var d := PendingDueDay(taskDueDateMap, dayOf, t);
    d.Some? && d.value < today
  }

  /** `due === today`: an incomplete task with a due date that is not overdue. */
  predicate DueToday(taskDueDateMap: map<int, string>, dayOf: string -> Option<int>, today: int, t: Task)
    ensures DueToday(taskDueDateMap, dayOf, today, t) ==>
      !t.completed && HasDueDate(taskDueDateMap, t) && !Overdue(taskDueDateMap, dayOf, today, t)
  {
    var d := PendingDueDay(taskDueDateMap, dayOf, t);
    d.Some? && d.value == today
  }

  /** `due > today && due <= weekFromNow`, seven days ahead: an incomplete task
      with a due date that is neither overdue nor due today. */
  predicate DueThisWeek(taskDueDateMap: map<int, string>, dayOf: string -> Option<int>, today: int, t: Task)
    ensures DueThisWeek(taskDueDateMap, dayOf, today, t) ==>
      !t.completed && HasDueDate(taskDueDateMap, t) &&
      !Overdue(taskDueDateMap, dayOf, today, t) && !DueToday(taskDueDateMap, dayOf, today, t)
  {
    var d := PendingDueDay(taskDueDateMap, dayOf, t);
    d.Some? && today < d.value <= today + 7
  }

  /** `taskDueDateMap[t.id]` is truthy. */
  predicate HasDueDate(taskDueDateMap: map<int, string>, t: Task) {
    Truthy(Get(taskDueDateMap, t.id))
  }

  /** The whole `stats` object. */
  function ComputeStats(tasks: seq<Task>, categories: seq<Category>, taskCategoryMap: map<int, string>,
                        taskDueDateMap: map<int, string>, dayOf: string -> Option<int>, today: int): (s: Stats)
    ensures s.total == |tasks| && s.completed == Count(tasks, IsDone)
    ensures s.active == Count(tasks, IsActive) && s.completed + s.active == s.total
    ensures s.total == 0 ==> s.completionRate == 0
    ensures s.withDueDate == Count(tasks, (t: Task) => HasDueDate(taskDueDateMap, t))
    ensures s.withoutDueDate == Count(tasks, (t: Task) => !HasDueDate(taskDueDateMap, t))
    ensures s.withDueDate + s.withoutDueDate == s.total
  {
    var total := |tasks|;
    var completed := Count(tasks, IsDone);
    CountComplement(tasks, IsDone, IsActive);
    var withDueDate := Count(tasks, (t: Task) => HasDueDate(taskDueDateMap, t));
    CountComplement(tasks, (t: Task) => HasDueDate(taskDueDateMap, t), (t: Task) => !HasDueDate(taskDueDateMap, t));
    Stats(
      total,
      completed,
      total - completed,
      CompletionRate(completed, total),
      EmittedBuckets(tasks, categories, taskCategoryMap),
      Count(tasks, (t: Task) => Overdue(taskDueDateMap, dayOf, today, t)),
      Count(tasks, (t: Task) => DueToday(taskDueDateMap, dayOf, today, t)),
      Count(tasks, (t: Task) => DueThisWeek(taskDueDateMap, dayOf, today, t)),
      withDueDate,
      total - withDueDate)
  }

  /** The three due buckets are pairwise disjoint (see the contracts of Overdue,
      DueToday and DueThisWeek) and hold only incomplete tasks with a due date:
      together they count at most that many tasks. */
  lemma DueBucketsDisjoint(tasks: seq<Task>, categories: seq<Category>, taskCategoryMap: map<int, string>,
                           taskDueDateMap: map<int, string>, dayOf: string -> Option<int>, today: int)
    ensures var s := ComputeStats(tasks, categories, taskCategoryMap, taskDueDateMap, dayOf, today);
      s.overdue + s.dueToday + s.dueThisWeek <= Count(tasks, (t: Task) => !t.completed && HasDueDate(taskDueDateMap, t))
  {
    var o := (t: Task) => Overdue(taskDueDateMap, dayOf, today, t);
    var d := (t: Task) => DueToday(taskDueDateMap, dayOf, today, t);
    var w := (t: Task) => DueThisWeek(taskDueDateMap, dayOf, today, t);
    var od := (t: Task) => o(t) || d(t);
    var odw := (t: Task) => od(t) || w(t);
    CountDisjointUnion(tasks, o, d, od);
    CountDisjointUnion(tasks, od, w, odw);
    CountMonotone(tasks, odw, (t: Task) => !t.completed && HasDueDate(taskDueDateMap, t));
  }
}
