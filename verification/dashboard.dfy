/** The per-user dashboard: a list of tasks whose status the user updates
    through a form, under one rule tying the status to a reason, and four
    tiles counting tasks per status. The rule and the counts are pure
    functions over sequences; the component state that `saveStatusUpdate`
    rewrites is the class `TaskDashboard` at the end. */
module Dashboard {
  import opened Collections
  import opened JsText

  /** The keys of `statusConfig`. */
  const NotStarted: string := "not_started"
  const InProgress: string := "in_progress"
  const Completed: string := "completed"
  const Blocked: string := "blocked"

  /** The status domain, in the order of the statistics tiles. */
  const StatusKeys: seq<string> := [NotStarted, InProgress, Completed, Blocked]

  /** One task as the dashboard shows it. */
  datatype Task = Task(
    id: int, title: string, description: string, assignedDate: string,
    dueDate: string, status: string, reason: string)

  /** The dashboard's initial tasks. */
  const SeedTasks: seq<Task> := [
    Task(1, "Complete React Documentation", "Read and understand React hooks documentation",
         "2024-11-01", "2024-11-15", NotStarted, ""),
    Task(2, "Build Login Component", "Create a reusable login component with form validation",
         "2024-11-03", "2024-11-18", InProgress, ""),
    Task(3, "API Integration Task", "Integrate user authentication API with frontend",
         "2024-11-05", "2024-11-20", NotStarted, "")]

  /** The statuses for which a reason must be given. */
  predicate NeedsReason(status: string)
  {
    status == Blocked || status == InProgress
  }

  /** The validation in `saveStatusUpdate`: a status that needs a reason
      is refused when the reason trims to nothing. Accepted exactly when
      the status needs no reason or the reason has a character that is not
      whitespace. */
  function ReasonAccepted(newStatus: string, reason: string): (ok: bool)
    ensures ok <==> (NeedsReason(newStatus) ==> exists i :: 0 <= i < |reason| && !IsWhitespace(reason[i]))
  {
    !(NeedsReason(newStatus) && Trim(reason) == "")
  }

  /** The task `task` after its status is set to `newStatus`: a completed
      task loses its reason, any other keeps the reason as entered. */
  function WithStatus(task: Task, newStatus: string, reason: string): (r: Task)
    ensures r.status == newStatus
    ensures r.reason == (if newStatus == Completed then "" else reason)
    ensures r.id == task.id && r.title == task.title && r.description == task.description
    ensures r.assignedDate == task.assignedDate && r.dueDate == task.dueDate
  {
    task.(status := newStatus, reason := if newStatus == Completed then "" else reason)
  }

  /** The list after an accepted update: every task with the selected id
      rewritten by `WithStatus`, every other task untouched, the length
      kept. */
  function UpdateStatus(tasks: seq<Task>, id: int, newStatus: string, reason: string): (r: seq<Task>)
    ensures |r| == |tasks|
    ensures forall k :: 0 <= k < |r| && tasks[k].id == id ==> r[k] == WithStatus(tasks[k], newStatus, reason)
    ensures forall k :: 0 <= k < |r| && tasks[k].id != id ==> r[k] == tasks[k]
  {
    seq(|tasks|, k requires 0 <= k < |tasks| =>
      if tasks[k].id == id then WithStatus(tasks[k], newStatus, reason) else tasks[k])
  }

  /** The status/reason rule: a task in a status that needs a reason has a
      non-blank one, and a completed task has none. */
  predicate FollowsReasonRule(t: Task)
  {
    (NeedsReason(t.status) ==> !IsBlank(t.reason)) &&
    (t.status == Completed ==> t.reason == "")
  }

  /** Every task follows the status/reason rule. */
  ghost predicate AllFollowReasonRule(tasks: seq<Task>)
  {
    forall t :: t in tasks ==> FollowsReasonRule(t)
  }

  /** Every task's status is one of the `statusConfig` keys. */
  ghost predicate AllStatusesKnown(tasks: seq<Task>)
  {
    forall t :: t in tasks ==> t.status in StatusKeys
  }

  /** The figure on a statistics tile:
      `tasks.filter(t => t.status === status).length`. */
  function CountWithStatus(tasks: seq<Task>, status: string): (n: nat)
    ensures n <= |tasks|
    ensures n == 0 <==> forall t :: t in tasks ==> t.status != status
  {
    var matching := Filter(tasks, (t: Task) => t.status == status);
    assert matching != [] ==> matching[0] in matching;
    |matching|
  }

  /** Counting a list one task at a time. */
  lemma CountUnfold(tasks: seq<Task>, status: string)
    requires tasks != []
    ensures CountWithStatus(tasks, status) ==
            (if tasks[0].status == status then 1 else 0) + CountWithStatus(tasks[1..], status)
  {
  }

  /** When every status is a `statusConfig` key, the four tiles add up to
      the number of tasks. */
  lemma {:induction false} CountsSumToTotal(tasks: seq<Task>)
    requires AllStatusesKnown(tasks)
    ensures CountWithStatus(tasks, NotStarted) + CountWithStatus(tasks, InProgress) +
            CountWithStatus(tasks, Completed) + CountWithStatus(tasks, Blocked) == |tasks|
  {
    if tasks != [] {
      var rest := tasks[1..];
      assert tasks[0] in tasks;
      assert forall t :: t in rest ==> t in tasks;
      CountsSumToTotal(rest);
      var s := tasks[0].status;
      assert s == NotStarted || s == InProgress || s == Completed || s == Blocked;
      CountUnfold(tasks, NotStarted);
      CountUnfold(tasks, InProgress);
      CountUnfold(tasks, Completed);
      CountUnfold(tasks, Blocked);
    }
  }

  /** No two tasks share an id (true of the seed list; updates keep ids). */
  ghost predicate UniqueIds(tasks: seq<Task>)
  {
    forall j, k :: 0 <= j < k < |tasks| ==> tasks[j].id != tasks[k].id
  }

  /** Updating a list is updating its head and then its tail. */
  lemma UpdateStatusTail(tasks: seq<Task>, id: int, newStatus: string, reason: string)
    requires tasks != []
    ensures UpdateStatus(tasks, id, newStatus, reason)[1..] == UpdateStatus(tasks[1..], id, newStatus, reason)
  {
  }

  /** Updates keep ids, so they keep them unique. */
  lemma UpdateKeepsUniqueIds(tasks: seq<Task>, id: int, newStatus: string, reason: string)
    requires UniqueIds(tasks)
    ensures UniqueIds(UpdateStatus(tasks, id, newStatus, reason))
  {
  }

  /** With unique ids, saving a new status for the task at `k` moves it
      from the tile of its old status to the tile of the new one: the
      count for any status gains one if it is the new status and loses one
      if it was the old. */
  lemma {:induction false} UpdateMovesOneTask(tasks: seq<Task>, k: nat, newStatus: string, reason: string, status: string)
    requires k < |tasks| && UniqueIds(tasks)
    ensures CountWithStatus(UpdateStatus(tasks, tasks[k].id, newStatus, reason), status) +
            (if tasks[k].status == status then 1 else 0)
         == CountWithStatus(tasks, status) + (if newStatus == status then 1 else 0)
  {
    var id := tasks[k].id;
    var r := UpdateStatus(tasks, id, newStatus, reason);
    var rest := tasks[1..];
    UpdateStatusTail(tasks, id, newStatus, reason);
    CountUnfold(tasks, status);
    CountUnfold(r, status);
    if k == 0 {
      forall j | 0 <= j < |rest| ensures rest[j].id != id {
        assert rest[j] == tasks[j + 1];
      }
      assert UpdateStatus(rest, id, newStatus, reason) == rest;
    } else {
      assert tasks[0].id != id;
      assert UniqueIds(rest) by {
        forall i, j | 0 <= i < j < |rest| ensures rest[i].id != rest[j].id {
          assert rest[i] == tasks[i + 1] && rest[j] == tasks[j + 1];
        }
      }
      assert rest[k - 1] == tasks[k];
      UpdateMovesOneTask(rest, k - 1, newStatus, reason, status);
    }
  }

  /** An update to one of the `statusConfig` keys (the select offers only
      those) keeps every status known, so the tiles still add up. */
  lemma UpdateKeepsStatusesKnown(tasks: seq<Task>, id: int, newStatus: string, reason: string)
    requires AllStatusesKnown(tasks) && newStatus in StatusKeys
    ensures AllStatusesKnown(UpdateStatus(tasks, id, newStatus, reason))
    ensures var r := UpdateStatus(tasks, id, newStatus, reason);
            CountWithStatus(r, NotStarted) + CountWithStatus(r, InProgress) +
            CountWithStatus(r, Completed) + CountWithStatus(r, Blocked) == |tasks|
  {
    var r := UpdateStatus(tasks, id, newStatus, reason);
    forall t | t in r ensures t.status in StatusKeys {
      var k :| 0 <= k < |r| && r[k] == t;
      assert tasks[k] in tasks;
    }
    CountsSumToTotal(r);
  }

  /** An accepted update leaves the rewritten tasks following the rule. */
  lemma AcceptedUpdateFollowsRule(tasks: seq<Task>, id: int, newStatus: string, reason: string)
    requires ReasonAccepted(newStatus, reason)
    ensures forall k :: 0 <= k < |tasks| && tasks[k].id == id ==>
              FollowsReasonRule(UpdateStatus(tasks, id, newStatus, reason)[k])
  {
  }

  /** Accepted updates preserve the rule over the whole list. */
  lemma AcceptedUpdatePreservesRule(tasks: seq<Task>, id: int, newStatus: string, reason: string)
    requires AllFollowReasonRule(tasks) && ReasonAccepted(newStatus, reason)
    ensures AllFollowReasonRule(UpdateStatus(tasks, id, newStatus, reason))
  {
  }

  /** The seed list does not follow the rule: the second task is in
      progress with an empty reason. */
  lemma SeedTasksBreakReasonRule()
    ensures !AllFollowReasonRule(SeedTasks)
  {
    assert SeedTasks[1] in SeedTasks;
    assert !FollowsReasonRule(SeedTasks[1]);
  }

  /** The dashboard component's state. `newStatus` and `reason` are the
      status form's fields; `selectedTask` is the task the form was opened
      for. Alerts arrive as a `false` result. */
  class TaskDashboard {
    var tasks: seq<Task>
    var selectedTask: Option<Task>
    var newStatus: string
    var reason: string

    /** The initial state: the seed tasks, nothing selected, empty form. */
    constructor ()
      ensures tasks == SeedTasks && selectedTask == None
      ensures newStatus == "" && reason == ""
      ensures UniqueIds(tasks) && AllStatusesKnown(tasks)
    {
      tasks := SeedTasks;
      selectedTask := None;
      newStatus := "";
      reason := "";
    }

    /** `handleStatusUpdate`: open the form for `task`, pre-filled with its
      status and reason. */
    method HandleStatusUpdate(task: Task)
      modifies this
      ensures selectedTask == Some(task)
      ensures newStatus == task.status && reason == task.reason
      ensures tasks == old(tasks)
    {
      selectedTask := Some(task);
      newStatus := task.status;
      reason := task.reason;
    }

    /** The status select (`setNewStatus`). */
    method SetNewStatus(status: string)
      modifies this
      ensures newStatus == status
      ensures tasks == old(tasks) && selectedTask == old(selectedTask) && reason == old(reason)
    {
      newStatus := status;
    }

    /** The reason text area (`setReason`). */
    method SetReason(text: string)
      modifies this
      ensures reason == text
      ensures tasks == old(tasks) && selectedTask == old(selectedTask) && newStatus == old(newStatus)
    {
      reason := text;
    }

    /** `saveStatusUpdate`: refuse a status that needs a reason when the
      reason is blank, changing nothing; otherwise rewrite every task with
      the selected id, then clear the selection and the draft reason. */
    method SaveStatusUpdate() returns (saved: bool)
      requires selectedTask.Some?
      modifies this
      ensures saved == ReasonAccepted(old(newStatus), old(reason))
      ensures !saved ==> tasks == old(tasks) && selectedTask == old(selectedTask) && reason == old(reason)
      ensures saved ==> tasks == UpdateStatus(old(tasks), old(selectedTask).value.id, old(newStatus), old(reason))
      ensures saved ==> selectedTask == None && reason == ""
      ensures saved && AllFollowReasonRule(old(tasks)) ==> AllFollowReasonRule(tasks)
      ensures UniqueIds(old(tasks)) ==> UniqueIds(tasks)
      ensures newStatus == old(newStatus)
    {
      if NeedsReason(newStatus) && Trim(reason) == "" {
        return false;
      }
      AcceptedUpdateFollowsRule(tasks, selectedTask.value.id, newStatus, reason);
      if AllFollowReasonRule(tasks) {
        AcceptedUpdatePreservesRule(tasks, selectedTask.value.id, newStatus, reason);
      }
      if UniqueIds(tasks) {
        UpdateKeepsUniqueIds(tasks, selectedTask.value.id, newStatus, reason);
      }
      tasks := UpdateStatus(tasks, selectedTask.value.id, newStatus, reason);
      selectedTask := None;
      reason := "";
      saved := true;
    }

    /** The Cancel button: drop the draft reason and nothing else. */
    method Cancel()
      modifies this
      ensures reason == ""
      ensures tasks == old(tasks) && selectedTask == old(selectedTask) && newStatus == old(newStatus)
    {
      reason := "";
    }
  }
}
