/**
 * The dashboard: the per-status counts folded out of the server's stats,
 * the counters shown with a zero default, the short list of recent tasks
 * and the colour variants of the status and priority badges.
 */
module Dashboard {
  import opened TaskModel

  /** One `byStatus` entry of the stats answer: a status and how many tasks have it. */
  datatype StatusCount = StatusCount(id: string, count: int)

  /** The stats answer; either part may be missing. */
  datatype Stats = Stats(total: Option<int>, byStatus: Option<seq<StatusCount>>)

  const Pending := "pending"
  const InProgress := "in-progress"
  const Completed := "completed"

  /** How many tasks the dashboard lists. */
  const RecentLimit := 5

  /** Entry `i` is the last entry for its status among the first `n`. */
  ghost predicate LastBefore(entries: seq<StatusCount>, i: int, n: int)
    requires 0 <= i < n <= |entries|
  {
    forall j :: i < j < n ==> entries[j].id != entries[i].id
  }

  /**
   * `m` is the count map of `entries`: it has a key for every status that
   * occurs, and each status maps to the count of its last entry.
   */
  ghost predicate IsCountMap(entries: seq<StatusCount>, m: map<string, int>) {
    && (forall k :: k in m <==> exists i :: 0 <= i < |entries| && entries[i].id == k)
    && (forall i :: 0 <= i < |entries| && LastBefore(entries, i, |entries|) ==> m[entries[i].id] == entries[i].count)
  }

  /** Every entry has a last entry with the same status at or after it. */
  lemma {:induction false} LastOccurrence(entries: seq<StatusCount>, i: int) returns (j: int)
    requires 0 <= i < |entries|
    ensures i <= j < |entries| && entries[j].id == entries[i].id && LastBefore(entries, j, |entries|)
    decreases |entries| - i
  {
    if LastBefore(entries, i, |entries|) {
      j := i;
    } else {
      var later :| i < later < |entries| && entries[later].id == entries[i].id;
      j := LastOccurrence(entries, later);
    }
  }

  /** The entries determine their count map: there is only one. */
  lemma CountMapUnique(entries: seq<StatusCount>, m1: map<string, int>, m2: map<string, int>)
    requires IsCountMap(entries, m1) && IsCountMap(entries, m2)
    ensures m1 == m2
  {
    forall k | k in m1
      ensures k in m2 && m1[k] == m2[k]
    {
      var i :| 0 <= i < |entries| && entries[i].id == k;
      var j := LastOccurrence(entries, i);
    }
  }

  /** The `reduce` over `byStatus`: each entry writes its count under its status, later entries overwriting earlier ones. */
  method FoldStatusCounts(entries: seq<StatusCount>) returns (acc: map<string, int>)
    ensures IsCountMap(entries, acc)
  {
    acc := map[];
    var n := 0;
    while n < |entries|
      invariant 0 <= n <= |entries|
      invariant forall k :: k in acc <==> exists i :: 0 <= i < n && entries[i].id == k
      invariant forall i :: 0 <= i < n && LastBefore(entries, i, n) ==> acc[entries[i].id] == entries[i].count
    {
      acc := acc[entries[n].id := entries[n].count];
      n := n + 1;
    }
  }

  /** `statusCounts`: the count map of `byStatus`, or the empty map when the stats or `byStatus` are missing. */
  method StatusCounts(stats: Option<Stats>) returns (counts: map<string, int>)
    ensures stats.None? || stats.value.byStatus.None? ==> counts == map[]
    ensures stats.Some? && stats.value.byStatus.Some? ==> IsCountMap(stats.value.byStatus.value, counts)
  {
    if stats.Some? && stats.value.byStatus.Some? {
      counts := FoldStatusCounts(stats.value.byStatus.value);
    } else {
      counts := map[];
    }
  }

  /** `statusCounts[key] || 0`: the count when there is one, 0 otherwise. */
  function DisplayCount(counts: map<string, int>, key: string): (n: int)
    ensures n == if key in counts then counts[key] else 0
  {
    if key in counts && counts[key] != 0 then counts[key] else 0
  }

  /** `stats?.total || 0`. */
  function DisplayTotal(stats: Option<Stats>): (n: int)
    ensures n == if stats.Some? && stats.value.total.Some? then stats.value.total.value else 0
  {
    match stats
    case Some(Stats(Some(total), _)) => if total != 0 then total else 0
    case _ => 0
  }

  /** The counter shown for a status is the count of its last `byStatus` entry, or 0 if it has none. */
  lemma DisplayedStatusCount(entries: seq<StatusCount>, counts: map<string, int>, key: string)
    requires IsCountMap(entries, counts)
    ensures (forall i :: 0 <= i < |entries| ==> entries[i].id != key) ==> DisplayCount(counts, key) == 0
    ensures forall i :: 0 <= i < |entries| && entries[i].id == key && LastBefore(entries, i, |entries|)
                        ==> DisplayCount(counts, key) == entries[i].count
  {
  }

  /** `tasks.slice(0, 5)`: a prefix of at most five tasks, all of them when there are no more than five. */
  function RecentTasks(tasks: seq<Task>): (r: seq<Task>)
    ensures |r| <= RecentLimit && r <= tasks
    ensures |tasks| <= RecentLimit ==> r == tasks
    ensures |tasks| >= RecentLimit ==> |r| == RecentLimit
  {
    tasks[..if |tasks| < RecentLimit then |tasks| else RecentLimit]
  }

  /** Taking the recent tasks of the recent tasks changes nothing. */
  lemma RecentTasksIdempotent(tasks: seq<Task>)
    ensures RecentTasks(RecentTasks(tasks)) == RecentTasks(tasks)
  {
  }

  const GrayVariant := "bg-gray-50 text-gray-600 border border-gray-200"
  const AmberVariant := "bg-amber-50 text-amber-700 border border-amber-200"
  const BlueVariant := "bg-blue-50 text-blue-700 border border-blue-200"
  const EmeraldVariant := "bg-emerald-50 text-emerald-700 border border-emerald-200"
  const RoseVariant := "bg-rose-50 text-rose-700 border border-rose-200"

  /** The badge classes of a status: one per known status, gray for anything else. */
  function StatusVariant(status: string): (v: string)
    ensures v == GrayVariant <==> status !in {Pending, InProgress, Completed}
  {
    if status == Pending then AmberVariant
    else if status == InProgress then BlueVariant
    else if status == Completed then EmeraldVariant
    else GrayVariant
  }

  /** The badge classes of a priority: one per known priority, gray for anything else. */
  function PriorityVariant(priority: string): (v: string)
    ensures v == GrayVariant <==> priority !in {"high", "medium", "low"}
  {
    if priority == "high" then RoseVariant
    else if priority == "medium" then AmberVariant
    else if priority == "low" then EmeraldVariant
    else GrayVariant
  }

  /** The three known statuses get three different badges; so do the three priorities. */
  lemma VariantsDistinct(a: string, b: string)
    ensures a in {Pending, InProgress, Completed} && b in {Pending, InProgress, Completed}
            ==> (StatusVariant(a) == StatusVariant(b) <==> a == b)
    ensures a in {"high", "medium", "low"} && b in {"high", "medium", "low"}
            ==> (PriorityVariant(a) == PriorityVariant(b) <==> a == b)
  {
  }

  /** The state of the dashboard page. */
  class DashboardView {
    var stats: Option<Stats>
    var recentTasks: seq<Task>
    var loading: bool

    constructor ()
      ensures stats == None && recentTasks == [] && loading
    {
      stats, recentTasks, loading := None, [], true;
    }

    /**
     * `fetchDashboardData`: `response` holds the stats and the task list, or
     * None when either request failed. Loading ends either way.
     */
    method FetchDashboardData(response: Option<(Stats, seq<Task>)>)
      modifies this
      ensures !loading
      ensures response.Some? ==> stats == Some(response.value.0) && recentTasks == RecentTasks(response.value.1)
      ensures response.None? ==> stats == old(stats) && recentTasks == old(recentTasks)
    {
      if response.Some? {
        stats := Some(response.value.0);
        recentTasks := RecentTasks(response.value.1);
      }
      loading := false;
    }
  }
}
