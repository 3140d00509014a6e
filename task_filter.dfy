/** src/hooks/useTaskFilter.ts: the `filteredTasks` memo, a status filter
    followed by a case-insensitive substring search on the task text. */
module TaskFilter {

  import opened TaskTypes
  import opened Seqs
  import opened Text

  datatype FilterStatus = All | Active | Completed

  /** The status predicate: `active` keeps open tasks, `completed` keeps done ones. */
  function StatusPasses(status: FilterStatus): Task -> bool {
    (t: Task) => match status
      case All => true
      case Active => !t.completed
      case Completed => t.completed
  }

  /** The text predicate for an already lower-cased, trimmed query. */
  function TextMatches(query: string): Task -> bool {
    (t: Task) => Contains(ToLower(t.todo), query)
  }

  /** The status step of the memo. */
  function ByStatus(tasks: seq<Task>, status: FilterStatus): (r: seq<Task>)
    ensures forall t :: t in r ==> t in tasks && StatusPasses(status)(t)
  {
    if status == Active || status == Completed then
      var r := Filter(tasks, StatusPasses(status));
      assert forall t :: t in r ==> StatusPasses(status)(t) by {
        forall t | t in r ensures StatusPasses(status)(t) {
          var i :| 0 <= i < |r| && r[i] == t;
        }
      }
      r
    else tasks
  }

  /** The query step of the memo: applied only when the trimmed query is non-empty. */
  function ByQuery(tasks: seq<Task>, searchQuery: string): (r: seq<Task>)
    ensures forall t :: t in r ==> t in tasks && (IsBlank(searchQuery) || TextMatches(Trim(ToLower(searchQuery)))(t))
  {
    if !IsBlank(searchQuery) then
      var p := TextMatches(Trim(ToLower(searchQuery)));
      var r := Filter(tasks, p);
      assert forall t :: t in r ==> p(t) by {
        forall t | t in r ensures p(t) {
          var i :| 0 <= i < |r| && r[i] == t;
        }
      }
      r
    else tasks
  }

  /** Whether a single task passes both filters. */
  predicate Passes(t: Task, status: FilterStatus, searchQuery: string) {
    StatusPasses(status)(t) && (IsBlank(searchQuery) || TextMatches(Trim(ToLower(searchQuery)))(t))
  }

  /** `filteredTasks`: every task shown is an input task that passes both filters. */
  function FilteredTasks(tasks: seq<Task>, status: FilterStatus, searchQuery: string): (r: seq<Task>)
    ensures forall t :: t in r ==> t in tasks && Passes(t, status, searchQuery)
  {
    ByQuery(ByStatus(tasks, status), searchQuery)
  }

  /** With status `all` and a blank query the list is shown unchanged. */
  lemma ShowAllIsIdentity(tasks: seq<Task>, searchQuery: string)
    requires IsBlank(searchQuery)
    ensures FilteredTasks(tasks, All, searchQuery) == tasks
  {
  }

  /** The result keeps the relative order of the input. */
  lemma FilteredIsSubsequence(tasks: seq<Task>, status: FilterStatus, searchQuery: string)
    ensures IsSubsequence(FilteredTasks(tasks, status, searchQuery), tasks)
  {
    var s := ByStatus(tasks, status);
    if status == Active || status == Completed {
      FilterIsSubsequence(tasks, StatusPasses(status));
    } else {
      SubsequenceReflexive(tasks);
    }
    if !IsBlank(searchQuery) {
      FilterIsSubsequence(s, TextMatches(Trim(ToLower(searchQuery))));
      SubsequenceTransitive(FilteredTasks(tasks, status, searchQuery), s, tasks);
    }
  }

  /** Every input task that passes both filters is shown, as often as it occurs,
      and no task that fails one is shown. */
  lemma FilteredExactlyPassing(tasks: seq<Task>, status: FilterStatus, searchQuery: string, t: Task)
    ensures multiset(FilteredTasks(tasks, status, searchQuery))[t] ==
      if Passes(t, status, searchQuery) then multiset(tasks)[t] else 0
  {
    var s := ByStatus(tasks, status);
    if status == Active || status == Completed {
      FilterMultiplicity(tasks, StatusPasses(status), t);
    }
    if !IsBlank(searchQuery) {
      FilterMultiplicity(s, TextMatches(Trim(ToLower(searchQuery))), t);
    }
  }

  /** Filtering the shown list again with the same settings changes nothing. */
  lemma FilteredIdempotent(tasks: seq<Task>, status: FilterStatus, searchQuery: string)
    ensures FilteredTasks(FilteredTasks(tasks, status, searchQuery), status, searchQuery) == FilteredTasks(tasks, status, searchQuery)
  {
    var r := FilteredTasks(tasks, status, searchQuery);
    var ps := StatusPasses(status);
    var pq := TextMatches(Trim(ToLower(searchQuery)));
    if status == Active || status == Completed {
      if !IsBlank(searchQuery) {
        calc {
          Filter(Filter(r, ps), pq);
          { FilterAllPass(r, ps); }
          Filter(r, pq);
          { FilterIdempotent(Filter(tasks, ps), pq); }
          r;
        }
      } else {
        FilterIdempotent(tasks, ps);
      }
    } else if !IsBlank(searchQuery) {
      FilterIdempotent(tasks, pq);
    }
  }
}
