# Task manager client view state, in Dafny

This project models the client-side view state of a personal task manager
(a React single-page client over a REST API). It covers three things. The
task list page keeps the fetched tasks, three filters (status, priority, free
text) and the filtered view derived from them. It also reconciles the list
with the server's answer after a delete, an update or a create. The task form
sets its defaults for a new or an edited task, tracks per-field errors,
validates the title and description, and calls the save callback only with
valid data. The dashboard folds the server's per-status counts into a map,
shows missing counters as 0, lists at most five recent tasks and picks badge
colours for statuses and priorities.

The answers of the list, save and dashboard requests are parameters: an
`Option` that is `None` when the request threw. The delete request's outcome
is the boolean `deleted`, the confirmation dialog's answer the boolean
`confirmed`, and the save callback's success the boolean `saveSucceeds`. React's state updates are immediate assignments. The effect that
recomputes the filtered view whenever the list or the filters change is folded
into every handler of `TasksPage.TasksView`. So its invariant `Valid()`,
`filteredTasks == Filtered(tasks, filters)`, holds between events.

Modules, one per file:

- `JsStrings` (`js_strings.dfy`): `trim`, `toLowerCase` and `includes` on strings.
- `TaskModel` (`task_model.dfy`): the task record, the order-preserving filter `Keep`, and subsequences.
- `TasksPage` (`tasks_page.dfy`): `frontend/src/pages/Tasks.jsx`.
- `TaskModal` (`task_modal.dfy`): `frontend/src/components/TaskModal.jsx`.
- `Dashboard` (`dashboard.dfy`): `frontend/src/pages/Dashboard.jsx`.

`filterTasks` narrows a copy of the list in up to three passes.
`TasksPage.FilterTasks` does the same, and is proved equal to the one-pass
definition `TasksPage.Filtered`. All the filter properties are proved about
`Filtered`. The form's `validate` builds its error map field by field.
`TaskModal.CollectErrors` does the same, using the trimmed title. It is proved
equal to the declarative rules `TaskModal.ValidationErrors`, which are stated
with "the title is all whitespace".

Two behaviours of the code are stated exactly as written:

- The form checks that the trimmed title is non-empty and that the untrimmed
  title is at most 100 characters. So a title of 101 characters that is all
  spaces is reported as "Title is required", not as too long.
- A failed delete only raises an alert, and the list stays as it was; the
  error goes no further. A failed save is rethrown to the form, which raises
  the alert.

## Model

| member | source | states |
|---|---|---|
| `JsStrings.TrimStart` | frontend/src/components/TaskModal.jsx:44 | leading trim removes only whitespace, and what is left does not start with whitespace |
| `JsStrings.TrimEnd` | frontend/src/components/TaskModal.jsx:44 | trailing trim removes only whitespace, and what is left does not end with whitespace |
| `JsStrings.Trim` | frontend/src/components/TaskModal.jsx:44 | `trim` returns a slice of the string with only whitespace on either side, and the slice neither starts nor ends with whitespace |
| `JsStrings.TrimEmptyIffBlank` | frontend/src/components/TaskModal.jsx:44 | `!title.trim()` holds exactly when every character of the title is whitespace |
| `JsStrings.Lower` | frontend/src/pages/Tasks.jsx:51-52 | `toLowerCase` keeps the length, changes exactly the upper-case letters, each to its lower-case letter, and leaves no upper-case letter |
| `JsStrings.LowerIdempotent` | frontend/src/pages/Tasks.jsx:51-52 | lower-casing an already lower-cased string changes nothing |
| `JsStrings.Includes` | frontend/src/pages/Tasks.jsx:51-52 | `includes` holds for the empty needle and for a prefix, and only when the needle is no longer than the haystack |
| `JsStrings.IncludesIffOccurs` | frontend/src/pages/Tasks.jsx:51-52 | `includes` holds exactly when the needle occurs at some index of the haystack |
| `TaskModel.Keep` | frontend/src/pages/Tasks.jsx:42 | `filter` keeps exactly the elements satisfying the predicate, each as many times as it occurs, is never longer, and returns the whole list when every element passes |
| `TaskModel.KeepIsSubsequence` | frontend/src/pages/Tasks.jsx:42-53 | `filter` never reorders: its result is a subsequence of its input |
| `TaskModel.KeepCongruent` | frontend/src/pages/Tasks.jsx:42-53 | filtering by two predicates that agree on every task gives the same list |
| `TaskModel.KeepKeep` | frontend/src/pages/Tasks.jsx:39-54 | two successive filters equal one filter by the conjunction |
| `TasksPage.WithFilter` | frontend/src/pages/Tasks.jsx:100-105 | a filter change sets the named filter to the value and leaves the other two as they were |
| `TasksPage.WithFilterUnchanged` | frontend/src/pages/Tasks.jsx:100-105 | setting a filter to its current value changes nothing |
| `TasksPage.WithFilterOverwrites` | frontend/src/pages/Tasks.jsx:100-105 | a second change of the same filter overrides the first |
| `TasksPage.WithFilterCommutes` | frontend/src/pages/Tasks.jsx:100-105 | changes to two different filters can be made in either order |
| `TasksPage.Filtered` | frontend/src/pages/Tasks.jsx:38-57 | the view is a subsequence of the list, no longer than it, and holds exactly the listed tasks that pass all three filters, each as many times as in the list |
| `TasksPage.FilterTasks` | frontend/src/pages/Tasks.jsx:38-57 | the step-by-step narrowing by status, then priority, then search equals the one-pass view |
| `TasksPage.InitialFiltersShowAll` | frontend/src/pages/Tasks.jsx:13-56 | with status and priority 'all' and an empty search, the view is the task list unchanged |
| `TasksPage.StatusFilterExact` | frontend/src/pages/Tasks.jsx:41-43 | with a status filter on, every shown task has that status, and no task of that status that passes the other filters is dropped |
| `TasksPage.PriorityFilterExact` | frontend/src/pages/Tasks.jsx:45-47 | the same for the priority filter |
| `TasksPage.SearchFilterExact` | frontend/src/pages/Tasks.jsx:49-54 | an empty search hides nothing; otherwise a task is shown iff the lower-cased search occurs in its lower-cased title or in its lower-cased description when it has one |
| `TasksPage.SearchIgnoresCase` | frontend/src/pages/Tasks.jsx:49-54 | searching for a string and for its lower-cased form shows the same tasks |
| `TasksPage.StatusChoiceNarrowsView` | frontend/src/pages/Tasks.jsx:41-43 | choosing a status other than 'all' narrows the every-status view to the tasks with that status, in the same order |
| `TasksPage.ChangeBackRestoresView` | frontend/src/pages/Tasks.jsx:100-105 | changing a filter and then changing it back gives the old view |
| `TasksPage.RemoveById` | frontend/src/pages/Tasks.jsx:74 | after a delete no task has the id, every other task remains as many times as before and in its relative order, and a list without the id is unchanged |
| `TasksPage.ReplaceById` | frontend/src/pages/Tasks.jsx:85-87 | after an update the list has the same length, each task with the id is the server's copy and every other task is untouched |
| `TasksPage.UpdateKeepsIds` | frontend/src/pages/Tasks.jsx:83-87 | an update answered with the same id leaves the sequence of ids unchanged |
| `TasksPage.UpdateIdempotent` | frontend/src/pages/Tasks.jsx:85-87 | applying the same server answer twice equals applying it once |
| `TasksPage.DeleteIdempotent` | frontend/src/pages/Tasks.jsx:74 | deleting the same id twice equals deleting it once |
| `TasksPage.CreateThenDelete` | frontend/src/pages/Tasks.jsx:90 | putting a task with a new id at the front and then deleting that id gives back the old list |
| `TasksPage.DeleteCommutesWithFilter` | frontend/src/pages/Tasks.jsx:69-78 | the view after a delete is the old view without the deleted task |
| `TasksPage.CreateShowsFirst` | frontend/src/pages/Tasks.jsx:88-90 | the view after a create is the old view, with the new task in front if it passes the filters |
| `TasksPage.TasksView.constructor` | frontend/src/pages/Tasks.jsx:8-17 | the page starts with empty lists, status and priority 'all', an empty search, loading on, and the form closed |
| `TasksPage.TasksView.Refilter` | frontend/src/pages/Tasks.jsx:23-25 | recomputing the view re-establishes `filteredTasks == Filtered(tasks, filters)` |
| `TasksPage.TasksView.FetchTasks` | frontend/src/pages/Tasks.jsx:27-36 | a successful fetch replaces the list, a failed one keeps it, and loading ends either way |
| `TasksPage.TasksView.OpenCreate` | frontend/src/pages/Tasks.jsx:59-62 | the form opens with no task being edited |
| `TasksPage.TasksView.OpenEdit` | frontend/src/pages/Tasks.jsx:64-67 | the form opens on the given task |
| `TasksPage.TasksView.CloseModal` | frontend/src/pages/Tasks.jsx:222-225 | the form closes and forgets the edited task |
| `TasksPage.TasksView.DeleteTask` | frontend/src/pages/Tasks.jsx:69-79 | the list loses the id only after a confirmed, successful delete, is unchanged otherwise, and a failed delete alerts |
| `TasksPage.TasksView.SaveTask` | frontend/src/pages/Tasks.jsx:81-98 | on success an edited task is replaced by the server's copy or a new one is put first, and the form closes; on failure nothing changes and the error is passed back |
| `TasksPage.TasksView.ChangeFilter` | frontend/src/pages/Tasks.jsx:100-105 | only the named filter changes, the list is untouched, and the view is recomputed |
| `TaskModal.WithField` | frontend/src/components/TaskModal.jsx:28-31 | a change sets the named input to the value and leaves every other input as it was |
| `TaskModal.FormFromTask` | frontend/src/components/TaskModal.jsx:14-23 | editing a task shows its title and description (empty if missing), its status and priority, or 'pending' and 'medium' when they are empty, and its due date's day part if it has one |
| `TaskModal.ClearError` | frontend/src/components/TaskModal.jsx:32-38 | a change hides the edited field's error by blanking it, keeps the same keys, and leaves the other messages |
| `TaskModal.ValidIffNoErrors` | frontend/src/components/TaskModal.jsx:41-56 | the error map is empty iff the title is not all whitespace and at most 100 long and the description is at most 500 long |
| `TaskModal.BlankTitleIsRequired` | frontend/src/components/TaskModal.jsx:44-45 | an all-whitespace title gets exactly 'Title is required', whatever its length |
| `TaskModal.EmptyDescriptionAccepted` | frontend/src/components/TaskModal.jsx:50-52 | an empty description never produces a description error |
| `TaskModal.CollectErrors` | frontend/src/components/TaskModal.jsx:41-53 | the error map built field by field equals the declarative rules, has only title and description keys, and is empty iff the form is valid |
| `TaskModal.EditingValidTaskIsValid` | frontend/src/components/TaskModal.jsx:15-22 | a task within the title and description limits opens as a form that passes validation |
| `TaskModal.TaskForm.constructor` | frontend/src/components/TaskModal.jsx:4-24 | a new form starts empty with status 'pending' and priority 'medium', an edit form starts from the task, with no errors and loading off |
| `TaskModal.TaskForm.HandleChange` | frontend/src/components/TaskModal.jsx:26-39 | only the named input changes, and only that field's error is cleared |
| `TaskModal.TaskForm.Validate` | frontend/src/components/TaskModal.jsx:41-56 | the errors become the form's validation errors, and the result is true iff the form is valid |
| `TaskModal.TaskForm.HandleSubmit` | frontend/src/components/TaskModal.jsx:58-72 | an invalid form never reaches the save callback; a valid one is passed to it unchanged, and loading is off afterwards whether the save succeeded or threw |
| `Dashboard.LastOccurrence` | frontend/src/pages/Dashboard.jsx:69-72 | every status entry is followed, or is itself, the last entry for that status |
| `Dashboard.CountMapUnique` | frontend/src/pages/Dashboard.jsx:69-72 | the status entries determine their count map uniquely |
| `Dashboard.FoldStatusCounts` | frontend/src/pages/Dashboard.jsx:69-72 | the reduce has a key for each status that occurs, mapped to the count of its last entry |
| `Dashboard.StatusCounts` | frontend/src/pages/Dashboard.jsx:69-72 | the count map of `byStatus`, or the empty map when the stats or `byStatus` are missing |
| `Dashboard.DisplayCount` | frontend/src/pages/Dashboard.jsx:112 | `count || 0` shows the map's value when present and 0 otherwise |
| `Dashboard.DisplayTotal` | frontend/src/pages/Dashboard.jsx:97 | `stats?.total || 0` shows the total when present and 0 otherwise |
| `Dashboard.DisplayedStatusCount` | frontend/src/pages/Dashboard.jsx:127 | a status with no entry shows 0; otherwise it shows the count of its last entry |
| `Dashboard.RecentTasks` | frontend/src/pages/Dashboard.jsx:25 | the recent tasks are a prefix of the server's list, at most five long, and the whole list when it has at most five |
| `Dashboard.RecentTasksIdempotent` | frontend/src/pages/Dashboard.jsx:25 | taking the recent tasks twice equals taking them once |
| `Dashboard.StatusVariant` | frontend/src/pages/Dashboard.jsx:33-44 | total; gray exactly for statuses other than pending, in-progress and completed |
| `Dashboard.PriorityVariant` | frontend/src/pages/Dashboard.jsx:46-57 | total; gray exactly for priorities other than high, medium and low |
| `Dashboard.VariantsDistinct` | frontend/src/pages/Dashboard.jsx:33-57 | the three known statuses get three different badges, and so do the three known priorities |
| `Dashboard.DashboardView.constructor` | frontend/src/pages/Dashboard.jsx:9-11 | the dashboard starts with no stats, no recent tasks and loading on |
| `Dashboard.DashboardView.FetchDashboardData` | frontend/src/pages/Dashboard.jsx:17-31 | a successful fetch stores the stats and the recent tasks, a failed one keeps both, and loading ends either way |

## Left out

- Network calls (`taskAPI`, `Promise.all`, `await`) are not modelled. The list, save and dashboard results are `Option` parameters, `None` when the call threw; the delete result is the boolean `deleted`.
- `window.confirm`, `alert` and `console` are not modelled. The dialog's answer is a boolean parameter, and an alert is a boolean or outcome result.
- React's batched asynchronous state updates are not modelled. Each update is an immediate assignment.
- Rendering, CSS classes other than the badge variants, routing, and the layout, profile and task item components are not modelled. They are presentation only.
- The server side (controllers, authentication, validation middleware, models) is not part of this model.
- `toLowerCase` maps ASCII letters only. Full Unicode case mapping is a library table not given here.
- String length counts characters, not UTF-16 code units. Strings with characters outside the Basic Multilingual Plane have a different JavaScript `length`.
- `TaskModal.FormFromTask`: `new Date(d).toISOString().split('T')[0]` is the parameter `dateOnly`. Date parsing and time zones are not modelled.
- `TaskModal.TaskForm.HandleSubmit`: `loading` is true while the save callback runs. The model only states its value before and after, because the callback runs outside the model.
- `TasksPage.TasksView.SaveTask`: the form data sent to the server is not an input. The model uses only the server's returned task.
- `Dashboard.DisplayCount`: counts are integers. JavaScript values such as `undefined` or `NaN` in a count, and object-key coercion of status names, are not modelled.
- `Dashboard.DashboardView.FetchDashboardData`: if the task list in the answer were missing, `slice` would throw after the stats had been stored. The model assumes that the list is present.
- The task fields `title`, `status` and `priority` are always present strings, as the server stores them. The `||` defaults are modelled on the empty string.
