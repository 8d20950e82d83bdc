/**
 * The task list page: the fetched task list, the filter settings, the
 * filtered view derived from both, and the handlers that reconcile the list
 * with the server's answers after a delete, an update or a create.
 */
module TasksPage {
  import opened TaskModel
  import opened JsStrings

  /** The select value that switches a status or priority filter off. */
  const All := "all"

  datatype Filters = Filters(status: string, priority: string, search: string)

  /** The filters a freshly mounted page starts with. */
  const InitialFilters := Filters(All, All, "")

  /** The names `handleFilterChange` is called with: 'status', 'priority', 'search'. */
  datatype FilterField = StatusFilter | PriorityFilter | SearchFilter

  function FilterValue(f: Filters, field: FilterField): string {
    match field
    case StatusFilter => f.status
    case PriorityFilter => f.priority
    case SearchFilter => f.search
  }

  /** `{...prev, [field]: value}`: sets the named filter and leaves the other two. */
  function WithFilter(f: Filters, field: FilterField, value: string): (r: Filters)
    ensures FilterValue(r, field) == value
    ensures forall other :: other != field ==> FilterValue(r, other) == FilterValue(f, other)
  {
    match field
    case StatusFilter => f.(status := value)
    case PriorityFilter => f.(priority := value)
    case SearchFilter => f.(search := value)
  }

  /** Setting a filter to the value it already has changes nothing. */
  lemma WithFilterUnchanged(f: Filters, field: FilterField)
    ensures WithFilter(f, field, FilterValue(f, field)) == f
  {
  }

  /** A second change of the same filter overrides the first. */
  lemma WithFilterOverwrites(f: Filters, field: FilterField, a: string, b: string)
    ensures WithFilter(WithFilter(f, field, a), field, b) == WithFilter(f, field, b)
  {
  }

  /** Changes to two different filters can be made in either order. */
  lemma WithFilterCommutes(f: Filters, x: FilterField, a: string, y: FilterField, b: string)
    requires x != y
    ensures WithFilter(WithFilter(f, x, a), y, b) == WithFilter(WithFilter(f, y, b), x, a)
  {
  }

  // The three filter conditions of `filterTasks`.

  predicate StatusMatches(f: Filters, t: Task) {
    f.status == All || t.status == f.status
  }

  predicate PriorityMatches(f: Filters, t: Task) {
    f.priority == All || t.priority == f.priority
  }

  /** Case-insensitive substring match of `search` in the title or, when present, the description. */
  predicate SearchHit(search: string, t: Task) {
    || Includes(Lower(t.title), Lower(search))
    || (t.description.Some? && Includes(Lower(t.description.value), Lower(search)))
  }

  /** An empty search string is falsy and switches the search filter off. */
  predicate SearchMatches(f: Filters, t: Task) {
    f.search == "" || SearchHit(f.search, t)
  }

  predicate Matches(f: Filters, t: Task) {
    StatusMatches(f, t) && PriorityMatches(f, t) && SearchMatches(f, t)
  }

  function HasStatus(status: string): Task -> bool {
    (t: Task) => t.status == status
  }

  function HasPriority(priority: string): Task -> bool {
    (t: Task) => t.priority == priority
  }

  function Mentions(search: string): Task -> bool {
    t => SearchHit(search, t)
  }

  function MatchesAll(f: Filters): Task -> bool {
    t => Matches(f, t)
  }

  /**
   * The filtered view, defined in one pass: the tasks that pass all three
   * filters, in list order.
   */
  function Filtered(tasks: seq<Task>, f: Filters): (r: seq<Task>)
    ensures IsSubsequence(r, tasks)
    ensures |r| <= |tasks|
    ensures forall t :: t in r <==> t in tasks && Matches(f, t)
    ensures forall t :: multiset(r)[t] == if Matches(f, t) then multiset(tasks)[t] else 0
  {
    KeepIsSubsequence(tasks, MatchesAll(f));
    Keep(tasks, MatchesAll(f))
  }

  /**
   * `filterTasks`: start from a copy of the list and narrow it by status,
   * then by priority, then by the search string, each step only when that
   * filter is switched on. The result is the one-pass view.
   */
  method FilterTasks(tasks: seq<Task>, filters: Filters) returns (filtered: seq<Task>)
    ensures filtered == Filtered(tasks, filters)
  {
    filtered := tasks;
    ghost var byStatus: Task -> bool := t => StatusMatches(filters, t);
    if filters.status != All {
      filtered := Keep(filtered, HasStatus(filters.status));
      KeepCongruent(tasks, HasStatus(filters.status), byStatus);
    }
    assert filtered == Keep(tasks, byStatus);

    ghost var byPriority: Task -> bool := t => StatusMatches(filters, t) && PriorityMatches(filters, t);
    if filters.priority != All {
      filtered := Keep(filtered, HasPriority(filters.priority));
      KeepKeep(tasks, byStatus, HasPriority(filters.priority), byPriority);
    } else {
      KeepCongruent(tasks, byStatus, byPriority);
    }
    assert filtered == Keep(tasks, byPriority);

    if filters.search != "" {
      filtered := Keep(filtered, Mentions(filters.search));
      KeepKeep(tasks, byPriority, Mentions(filters.search), MatchesAll(filters));
    } else {
      KeepCongruent(tasks, byPriority, MatchesAll(filters));
    }
  }

  /** With the initial filters every task is shown, in list order. */
  lemma InitialFiltersShowAll(tasks: seq<Task>)
    ensures Filtered(tasks, InitialFilters) == tasks
  {
  }

  /**
   * A status (or priority) filter that is switched on keeps exactly the tasks
   * of that status (priority) that pass the other two filters.
   */
  lemma StatusFilterExact(tasks: seq<Task>, f: Filters, t: Task)
    requires f.status != All
    ensures t in Filtered(tasks, f) ==> t.status == f.status
    ensures t in tasks && t.status == f.status && PriorityMatches(f, t) && SearchMatches(f, t)
            ==> t in Filtered(tasks, f)
  {
  }

  lemma PriorityFilterExact(tasks: seq<Task>, f: Filters, t: Task)
    requires f.priority != All
    ensures t in Filtered(tasks, f) ==> t.priority == f.priority
    ensures t in tasks && t.priority == f.priority && StatusMatches(f, t) && SearchMatches(f, t)
            ==> t in Filtered(tasks, f)
  {
  }

  /**
   * The search keeps a task exactly when its lower-cased title, or its
   * lower-cased description if it has one, contains the lower-cased search
   * string at some position; an empty search keeps everything.
   */
  lemma SearchFilterExact(tasks: seq<Task>, f: Filters, t: Task)
    requires t in tasks && StatusMatches(f, t) && PriorityMatches(f, t)
    ensures f.search == "" ==> t in Filtered(tasks, f)
    ensures f.search != "" ==>
              (t in Filtered(tasks, f) <==>
                 || (exists i :: OccursAt(Lower(t.title), Lower(f.search), i))
                 || (t.description.Some? && exists i :: OccursAt(Lower(t.description.value), Lower(f.search), i)))
  {
    IncludesIffOccurs(Lower(t.title), Lower(f.search));
    if t.description.Some? {
      IncludesIffOccurs(Lower(t.description.value), Lower(f.search));
    }
  }

  /** Searching for a string and for its lower-cased form show the same tasks. */
  lemma SearchIgnoresCase(tasks: seq<Task>, f: Filters)
    ensures Filtered(tasks, f.(search := Lower(f.search))) == Filtered(tasks, f)
  {
    LowerIdempotent(f.search);
    assert (Lower(f.search) == "") == (f.search == "");
    KeepCongruent(tasks, MatchesAll(f.(search := Lower(f.search))), MatchesAll(f));
  }

  /**
   * Choosing a status other than 'all' narrows the view that shows every
   * status down to the tasks with the chosen status, in the same order.
   */
  lemma StatusChoiceNarrowsView(tasks: seq<Task>, f: Filters, status: string)
    requires status != All
    ensures Filtered(tasks, WithFilter(f, StatusFilter, status))
            == Keep(Filtered(tasks, WithFilter(f, StatusFilter, All)), HasStatus(status))
  {
    KeepKeep(tasks, MatchesAll(WithFilter(f, StatusFilter, All)), HasStatus(status),
             MatchesAll(WithFilter(f, StatusFilter, status)));
  }

  /** Changing a filter and then changing it back restores the view. */
  lemma ChangeBackRestoresView(tasks: seq<Task>, f: Filters, field: FilterField, value: string)
    ensures Filtered(tasks, WithFilter(WithFilter(f, field, value), field, FilterValue(f, field)))
            == Filtered(tasks, f)
  {
    WithFilterOverwrites(f, field, value, FilterValue(f, field));
    WithFilterUnchanged(f, field);
  }

  // Reconciling the local list with the server after a mutation.

  function WithoutId(id: string): Task -> bool {
    (t: Task) => t.id != id
  }

  /** After a delete: every task with the id is gone, the others stay in order. */
  function RemoveById(tasks: seq<Task>, id: string): (r: seq<Task>)
    ensures IsSubsequence(r, tasks)
    ensures forall t :: t in r <==> t in tasks && t.id != id
    ensures forall t :: multiset(r)[t] == if t.id != id then multiset(tasks)[t] else 0
    ensures (forall i :: 0 <= i < |tasks| ==> tasks[i].id != id) ==> r == tasks
  {
    KeepIsSubsequence(tasks, WithoutId(id));
    Keep(tasks, WithoutId(id))
  }

  /** After an update: same length, tasks with the id replaced by the server's copy, the others untouched. */
  function ReplaceById(tasks: seq<Task>, id: string, updated: Task): (r: seq<Task>)
    ensures |r| == |tasks|
    ensures forall i :: 0 <= i < |tasks| && tasks[i].id == id ==> r[i] == updated
    ensures forall i :: 0 <= i < |tasks| && tasks[i].id != id ==> r[i] == tasks[i]
  {
    seq(|tasks|, i requires 0 <= i < |tasks| => if tasks[i].id == id then updated else tasks[i])
  }

  /** An update that the server answers with the same id keeps the list's ids, in order. */
  lemma UpdateKeepsIds(tasks: seq<Task>, updated: Task)
    ensures Ids(ReplaceById(tasks, updated.id, updated)) == Ids(tasks)
  {
    var r := ReplaceById(tasks, updated.id, updated);
    forall i | 0 <= i < |tasks|
      ensures Ids(r)[i] == Ids(tasks)[i]
    {
      if tasks[i].id == updated.id {
        assert r[i] == updated;
      }
    }
  }

  /** Applying the same server answer twice is the same as applying it once. */
  lemma UpdateIdempotent(tasks: seq<Task>, updated: Task)
    ensures ReplaceById(ReplaceById(tasks, updated.id, updated), updated.id, updated)
            == ReplaceById(tasks, updated.id, updated)
  {
  }

  /** Deleting the same id twice is the same as deleting it once. */
  lemma DeleteIdempotent(tasks: seq<Task>, id: string)
    ensures RemoveById(RemoveById(tasks, id), id) == RemoveById(tasks, id)
  {
    var r := RemoveById(tasks, id);
    assert forall i :: 0 <= i < |r| ==> r[i] in r;
  }

  /** Creating a task whose id is new and then deleting it restores the list. */
  lemma CreateThenDelete(tasks: seq<Task>, created: Task)
    requires created.id !in Ids(tasks)
    ensures RemoveById([created] + tasks, created.id) == tasks
  {
    assert ([created] + tasks)[1..] == tasks;
    assert forall i :: 0 <= i < |tasks| ==> Ids(tasks)[i] == tasks[i].id;
  }

  /** The view after a delete is the old view without the deleted task. */
  lemma {:induction false} DeleteCommutesWithFilter(tasks: seq<Task>, f: Filters, id: string)
    ensures Filtered(RemoveById(tasks, id), f) == RemoveById(Filtered(tasks, f), id)
  {
    var both: Task -> bool := (t: Task) => t.id != id && Matches(f, t);
    KeepKeep(tasks, WithoutId(id), MatchesAll(f), both);
    KeepKeep(tasks, MatchesAll(f), WithoutId(id), both);
  }

  /** The view after a create shows the new task first if it passes the filters. */
  lemma CreateShowsFirst(tasks: seq<Task>, f: Filters, created: Task)
    ensures Filtered([created] + tasks, f)
            == (if Matches(f, created) then [created] else []) + Filtered(tasks, f)
  {
    assert ([created] + tasks)[1..] == tasks;
  }

  /**
   * The state of the task list page. The effect that recomputes
   * `filteredTasks` whenever `tasks` or `filters` changes is folded into
   * every handler, so `Valid()` holds between events.
   */
  class TasksView {
    var tasks: seq<Task>
    var filteredTasks: seq<Task>
    var loading: bool
    var isModalOpen: bool
    var editingTask: Option<Task>
    var filters: Filters

    ghost predicate Valid()
      reads this
    {
      filteredTasks == Filtered(tasks, filters)
    }

    constructor ()
      ensures Valid()
      ensures tasks == [] && filteredTasks == [] && filters == InitialFilters
      ensures loading && !isModalOpen && editingTask == None
    {
      tasks, filteredTasks := [], [];
      loading, isModalOpen, editingTask := true, false, None;
      filters := InitialFilters;
    }

    /** The effect on `[tasks, filters]`. */
    method Refilter()
      modifies this`filteredTasks
      ensures Valid()
    {
      filteredTasks := FilterTasks(tasks, filters);
    }

    /** `fetchTasks`: `response` is the fetched list, or None when the request failed. */
    method FetchTasks(response: Option<seq<Task>>)
      modifies this`tasks, this`filteredTasks, this`loading
      ensures Valid() && !loading
      ensures tasks == if response.Some? then response.value else old(tasks)
    {
      if response.Some? {
        tasks := response.value;
      }
      loading := false;
      Refilter();
    }

    /** `handleCreateTask`: open the form with no task being edited. */
    method OpenCreate()
      modifies this`isModalOpen, this`editingTask
      ensures isModalOpen && editingTask == None
    {
      editingTask := None;
      isModalOpen := true;
    }

    /** `handleEditTask`: open the form on `task`. */
    method OpenEdit(task: Task)
      modifies this`isModalOpen, this`editingTask
      ensures isModalOpen && editingTask == Some(task)
    {
      editingTask := Some(task);
      isModalOpen := true;
    }

    /** The form's close button. */
    method CloseModal()
      modifies this`isModalOpen, this`editingTask
      ensures !isModalOpen && editingTask == None
    {
      isModalOpen := false;
      editingTask := None;
    }

    /**
     * `handleDeleteTask`: `confirmed` is the user's answer to the confirmation
     * dialog and `deleted` whether the delete request succeeded. The list
     * changes only after a confirmed, successful delete; a failed one raises
     * an alert.
     */
    method DeleteTask(taskId: string, confirmed: bool, deleted: bool) returns (alerted: bool)
      requires Valid()
      modifies this`tasks, this`filteredTasks
      ensures Valid()
      ensures tasks == if confirmed && deleted then RemoveById(old(tasks), taskId) else old(tasks)
      ensures alerted <==> confirmed && !deleted
    {
      alerted := false;
      if !confirmed {
        return;
      }
      if deleted {
        tasks := RemoveById(tasks, taskId);
        Refilter();
      } else {
        alerted := true;
      }
    }

    /**
     * `handleSaveTask`: `response` is the server's copy of the saved task, or
     * None when the request failed. On success an edited task is replaced in
     * place, a new one goes to the front, and the form closes. On failure
     * nothing changes and `ok` is false: the error goes back to the form.
     */
    method SaveTask(response: Option<Task>) returns (ok: bool)
      requires Valid()
      modifies this`tasks, this`filteredTasks, this`isModalOpen, this`editingTask
      ensures Valid()
      ensures ok <==> response.Some?
      ensures ok && old(editingTask).Some? ==>
                tasks == ReplaceById(old(tasks), old(editingTask).value.id, response.value)
      ensures ok && old(editingTask).None? ==> tasks == [response.value] + old(tasks)
      ensures ok ==> !isModalOpen && editingTask == None
      ensures !ok ==> tasks == old(tasks) && isModalOpen == old(isModalOpen) && editingTask == old(editingTask)
    {
      if response.None? {
        return false;
      }
      if editingTask.Some? {
        tasks := ReplaceById(tasks, editingTask.value.id, response.value);
      } else {
        tasks := [response.value] + tasks;
      }
      Refilter();
      isModalOpen := false;
      editingTask := None;
      ok := true;
    }

    /** `handleFilterChange`: set one filter, leave the other two, recompute the view. */
    method ChangeFilter(field: FilterField, value: string)
      modifies this`filters, this`filteredTasks
      ensures Valid()
      ensures filters == WithFilter(old(filters), field, value)
    {
      filters := WithFilter(filters, field, value);
      Refilter();
    }
  }
}
