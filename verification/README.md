# Intern Portal: admin roster and task-status rules in Dafny

This project models the two pieces of logic in the Intern Portal web client that hold state.

- **The admin panel** (`InternAdminPortal`) keeps a roster of interns and a list of tasks in memory. Both are keyed by a numeric id. Its handlers do the following:
  - validate the intern form and the task form;
  - append an intern or a task with a fresh id;
  - overwrite an edited intern by id;
  - delete an intern together with every task assigned to it;
  - delete a single task;
  - resolve a task's assignee to a name, with `Unknown` as the fallback.
- **The per-user dashboard** lets the user change a task's status. The status is one of `not_started`, `in_progress`, `completed` and `blocked`. A change to `in_progress` or `blocked` needs a reason that is not blank after `trim()`. A change to `completed` clears the reason. Exactly the tasks with the selected id are rewritten. Four tiles count the tasks in each status.

Layout:

- `collections.dfy` (module `Collections`) models `Array.prototype.filter` as `Filter` and `Array.prototype.find` as `FirstIndex`. `Filter` is characterised by membership, multiplicity (`multiset`) and order (`IsSubsequence`).
- `jstext.dfy` (module `JsText`) models `String.prototype.trim` over the ECMAScript WhiteSpace and LineTerminator characters.
- `admin_panel.dfy` (module `AdminPanel`) holds the record types, the pure list updates and the lemmas about them. The class `InternAdminPortal` holds the component state (`interns`, `tasks`, `editingIntern`, `formData`, `taskFormData`). Its methods replace that state the way the handlers call `setInterns` and `setTasks`.
- `dashboard.dfy` (module `Dashboard`) holds the status domain, the validation, the list update, the tile counts and the status/reason rule. The class `TaskDashboard` holds `tasks`, `selectedTask`, `newStatus` and `reason`.

Browser calls enter the model as parameters:

- `window.confirm` is a `confirmed: bool` argument.
- `alert` followed by `return` is a `false` result that leaves the lists unchanged.
- `Date.now()` is a `now: int` argument. No operation assumes that ids are unique: every "by id" operation acts on all records with that id. Only the lemmas that say so (`UpdateMovesOneTask`) take unique ids as a hypothesis.

A task's assignee is an `Option<int>`. `None` stands for the empty placeholder of the assignee select and for a `NaN` from `parseInt`. JavaScript falsiness of the assignee is `None` or `Some(0)`.

Two design points where the model follows the code:

- The reason text area is labelled "(Optional)" for `in_progress` (`src/pages/Dashboard.jsx:203`). The save handler still refuses a blank reason for `in_progress` as well as for `blocked` (`src/pages/Dashboard.jsx:76`).
- A status/reason rule for the admin view would need a reason field. The admin task form has none and no such check (`src/pages/Admin/AdminPannel.jsx:63-71`), so the admin model has no such rule.

The rule is a property the save handler preserves, not an invariant of the initial data. The second seed task is `in_progress` with an empty reason. `Dashboard.SeedTasksBreakReasonRule` records this.

## Model

| member | source | states |
|---|---|---|
| `Collections.Filter` | src/pages/Admin/AdminPannel.jsx:38-39 | `s.filter(keep)` holds exactly the elements of `s` that `keep` accepts and is no longer than `s` |
| `Collections.FilterIsSubsequence` | src/pages/Admin/AdminPannel.jsx:38-39 | filtering only deletes, so what remains is in its original order |
| `Collections.FilterMultiplicity` | src/pages/Admin/AdminPannel.jsx:38-39 | every kept element occurs as often as in the input; every rejected one is gone |
| `Collections.FilterKeepsAll` | src/pages/Admin/AdminPannel.jsx:38-39 | a filter that rejects nothing returns its input unchanged |
| `Collections.FilterConcat` | src/pages/Admin/AdminPannel.jsx:38-39 | filtering distributes over concatenation (it treats each element on its own) |
| `Collections.FirstIndex` | src/pages/Admin/AdminPannel.jsx:80 | `find` stops at the first element that satisfies the predicate; None means no element does |
| `JsText.TrimStart` | src/pages/Dashboard.jsx:76 | the result is a suffix of the input, only whitespace was dropped, and it does not start with whitespace |
| `JsText.TrimEnd` | src/pages/Dashboard.jsx:76 | the result is a prefix of the input, only whitespace was dropped, and it does not end with whitespace |
| `JsText.IsWhitespace` | src/pages/Dashboard.jsx:76 | the characters `trim()` strips: ECMAScript WhiteSpace and LineTerminator |
| `JsText.Trim` | src/pages/Dashboard.jsx:76 | `trim()` is the slice of the input that starts after its leading whitespace; everything outside the slice is whitespace; the slice neither starts nor ends with whitespace; it is empty exactly when the input is all whitespace |
| `JsText.TrimKeepsContent` | src/pages/Dashboard.jsx:76 | every non-whitespace character of the input is still in the trimmed string, at the same offset from the first kept character |
| `JsText.TrimIdempotent` | src/pages/Dashboard.jsx:76 | trimming twice is trimming once |
| `AdminPanel.IsFalsyId` | src/pages/Admin/AdminPannel.jsx:64 | the assignee is falsy when it is unset (`''` or `NaN`) or 0 |
| `AdminPanel.InternFormComplete` | src/pages/Admin/AdminPannel.jsx:44 | an intern form passes the check when name, email, department and start date are all non-empty |
| `AdminPanel.TaskFormComplete` | src/pages/Admin/AdminPannel.jsx:64 | a task form passes the check when the assignee is not falsy and the title and deadline are non-empty; the description is not checked |
| `AdminPanel.RemoveIntern` | src/pages/Admin/AdminPannel.jsx:38 | no intern with the deleted id remains; every other intern remains, as often as before and in its order; an absent id changes nothing |
| `AdminPanel.RemoveTasksOf` | src/pages/Admin/AdminPannel.jsx:39 | no task assigned to the deleted intern remains; every other task remains, as often as before and in its order |
| `AdminPanel.RemoveTask` | src/pages/Admin/AdminPannel.jsx:75 | no task with the deleted id remains; every other task remains, as often as before and in its order |
| `AdminPanel.ReplaceIntern` | src/pages/Admin/AdminPannel.jsx:50 | the length is kept; every row with the edited id becomes the replacement; every other row is untouched |
| `AdminPanel.InternName` | src/pages/Admin/AdminPannel.jsx:79-82 | the name of the first intern whose id matches, or `Unknown` when none matches |
| `AdminPanel.ReplaceInternKeepsIds` | src/pages/Admin/AdminPannel.jsx:50 | an edit forces the id to stay the edited id, so the set of roster ids is unchanged |
| `AdminPanel.ReplaceAbsentIsIdentity` | src/pages/Admin/AdminPannel.jsx:50 | editing an id that no intern has changes nothing |
| `AdminPanel.ReplaceInternIdempotent` | src/pages/Admin/AdminPannel.jsx:50 | saving the same edit twice gives the same roster as saving it once |
| `AdminPanel.ReplaceInternThenName` | src/pages/Admin/AdminPannel.jsx:50 | after an edit of an id on the roster, the name lookup for that id returns the edited name |
| `AdminPanel.KnownIdHasName` | src/pages/Admin/AdminPannel.jsx:79-82 | an id on the roster resolves to the name of an intern that has that id |
| `AdminPanel.DeleteInternKeepsReferences` | src/pages/Admin/AdminPannel.jsx:36-41 | the cascading delete keeps every remaining task pointing at an intern on the roster |
| `AdminPanel.DeleteTaskKeepsReferences` | src/pages/Admin/AdminPannel.jsx:73-77 | deleting a task keeps every remaining task pointing at the roster |
| `AdminPanel.AddInternKeepsReferences` | src/pages/Admin/AdminPannel.jsx:51-52 | appending an intern keeps every task pointing at the roster |
| `AdminPanel.EditInternKeepsReferences` | src/pages/Admin/AdminPannel.jsx:49-50 | editing an intern keeps every task pointing at the roster |
| `AdminPanel.AddTaskKeepsReferences` | src/pages/Admin/AdminPannel.jsx:321-329 | a task whose assignee comes from the select, which lists only roster ids, keeps every task pointing at the roster |
| `AdminPanel.InternAdminPortal.constructor` | src/pages/Admin/AdminPannel.jsx:5-21 | the initial state is the three seed interns and the two seed tasks (which refer to them), no intern being edited and blank forms |
| `AdminPanel.InternAdminPortal.AddIntern` | src/pages/Admin/AdminPannel.jsx:24-28 | clears the edited intern and resets the intern form; the lists are unchanged |
| `AdminPanel.InternAdminPortal.EditIntern` | src/pages/Admin/AdminPannel.jsx:30-34 | records the intern being edited and fills the form from it; the lists are unchanged |
| `AdminPanel.InternAdminPortal.SetFormData` | src/pages/Admin/AdminPannel.jsx:245-290 | the intern form's inputs replace the form data and nothing else |
| `AdminPanel.InternAdminPortal.DeleteIntern` | src/pages/Admin/AdminPannel.jsx:36-41 | if confirmed, the roster loses the id and the task list loses that intern's tasks; if declined, both are unchanged; the references invariant is preserved |
| `AdminPanel.InternAdminPortal.SaveIntern` | src/pages/Admin/AdminPannel.jsx:43-55 | an empty name, email, department or start date is refused and the roster is unchanged; an edit replaces by id and keeps the id; an add appends one intern with id `now`; the tasks are unchanged |
| `AdminPanel.InternAdminPortal.AddTask` | src/pages/Admin/AdminPannel.jsx:58-61 | resets the task form; the lists are unchanged |
| `AdminPanel.InternAdminPortal.SetTaskFormData` | src/pages/Admin/AdminPannel.jsx:320-370 | the task form's inputs replace the task form data and nothing else |
| `AdminPanel.InternAdminPortal.SaveTask` | src/pages/Admin/AdminPannel.jsx:63-71 | a falsy assignee, an empty title or an empty deadline is refused and the tasks are unchanged (the description is not required); otherwise one task with the form data and id `now` is appended |
| `AdminPanel.InternAdminPortal.DeleteTask` | src/pages/Admin/AdminPannel.jsx:73-77 | if confirmed, every task with that id is removed; if declined, nothing changes; the roster is never touched |
| `Dashboard.NeedsReason` | src/pages/Dashboard.jsx:76 | exactly `blocked` and `in_progress` need a reason |
| `Dashboard.ReasonAccepted` | src/pages/Dashboard.jsx:76-79 | an update is accepted exactly when the new status needs no reason, or the reason has a character that is not whitespace |
| `Dashboard.WithStatus` | src/pages/Dashboard.jsx:83 | the status becomes the new one; the reason becomes empty for `completed` and is the entered reason, untrimmed, otherwise; id, title, description, assigned date and due date are unchanged |
| `Dashboard.UpdateStatus` | src/pages/Dashboard.jsx:81-85 | the task count is kept; the tasks with the selected id are rewritten as above; every other task is unchanged |
| `Dashboard.CountWithStatus` | src/pages/Dashboard.jsx:105-106 | a tile count is at most the number of tasks, and zero exactly when no task has that status |
| `Dashboard.CountUnfold` | src/pages/Dashboard.jsx:106 | a count is the first task's contribution plus the count of the rest |
| `Dashboard.CountsSumToTotal` | src/pages/Dashboard.jsx:41-66 | when every status is a `statusConfig` key, the four tile counts add up to the number of tasks |
| `Dashboard.UpdateKeepsUniqueIds` | src/pages/Dashboard.jsx:83 | an update never changes an id, so ids that were unique stay unique |
| `Dashboard.UpdateMovesOneTask` | src/pages/Dashboard.jsx:81-85 | with unique ids, an update of the task at one position moves it from its old status tile to the new one: each count gains one if it is the new status and loses one if it was the old status |
| `Dashboard.UpdateKeepsStatusesKnown` | src/pages/Dashboard.jsx:190-197 | an update to a status offered by the select keeps every status known, so the tiles still add up to the number of tasks |
| `Dashboard.AcceptedUpdateFollowsRule` | src/pages/Dashboard.jsx:76-83 | after an accepted update, every rewritten task has a non-blank reason if it is `blocked` or `in_progress`, and an empty reason if it is `completed` |
| `Dashboard.AcceptedUpdatePreservesRule` | src/pages/Dashboard.jsx:75-90 | if every task followed the status/reason rule before an accepted update, every task follows it after |
| `Dashboard.SeedTasksBreakReasonRule` | src/pages/Dashboard.jsx:16-24 | the second seed task is `in_progress` with an empty reason, so the seed list breaks the rule |
| `Dashboard.TaskDashboard.constructor` | src/pages/Dashboard.jsx:6-39 | the initial state is the seed tasks (with unique ids and known statuses), no selection and an empty status form |
| `Dashboard.TaskDashboard.HandleStatusUpdate` | src/pages/Dashboard.jsx:68-73 | selects the task and pre-fills the form with its status and reason; the tasks are unchanged |
| `Dashboard.TaskDashboard.SetNewStatus` | src/pages/Dashboard.jsx:191 | the status select replaces `newStatus` and nothing else |
| `Dashboard.TaskDashboard.SetReason` | src/pages/Dashboard.jsx:207 | the text area replaces `reason` and nothing else |
| `Dashboard.TaskDashboard.SaveStatusUpdate` | src/pages/Dashboard.jsx:75-90 | a blank reason for `blocked` or `in_progress` is refused and nothing changes; otherwise the tasks become the update of the old tasks for the selected id, the selection is cleared and the draft reason reset to empty; the status/reason rule and unique ids are preserved |
| `Dashboard.TaskDashboard.Cancel` | src/pages/Dashboard.jsx:222-225 | the draft reason is reset to empty; the tasks, the selection and the chosen status are unchanged |

## Left out

- Rendering is not modelled: JSX, Tailwind classes, icons, tab switching (`activeTab`) and modal visibility (`isModalOpen`, `isTaskModalOpen`, `showModal`). These are presentation only.
- `window.confirm`, `alert` and `Date.now()` are browser calls. They appear as a boolean argument, a `false` result and an integer argument.
- Dashboard.TaskDashboard.SaveStatusUpdate: requires a selected task. The Save button exists only while the status form is open, and only `handleStatusUpdate` opens it after setting the selection. Saving with no selection would throw a `TypeError` in the code; that case is not modelled.
- JavaScript coercion in general is not modelled. The assignee select's `parseInt` value is reduced to `Option<int>`. Text fields are always strings, so "falsy" for them means empty.
- `trim()` works on UTF-16 code units. The model works on Unicode scalar values. Every character `trim()` strips is a single code unit in both views.
- Rendering a task whose status is not a `statusConfig` key fails with a lookup error in the code. The model keeps such statuses as plain strings, and the tile-sum lemmas require every status to be a known key.
- `src/pages/login.jsx` (a fixed credential comparison and navigation), `src/component/Header.jsx` (a logout dialog and redirect) and `src/App.jsx` (route declarations) are not part of this model.
- HTTP calls, persistence, passwords and spreadsheet export do not appear in the modelled files, so they are not modelled.
