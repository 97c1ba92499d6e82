/** The admin portal (`InternAdminPortal`): a roster of interns and a list
    of tasks assigned to them, both kept in memory and keyed by a numeric
    id. The list updates are pure functions over sequences; the component
    that holds the state and replaces it handler by handler is the class
    `InternAdminPortal` at the end. */
module AdminPanel {
  import opened Collections

  /** One row of the roster. */
  datatype Intern = Intern(
    id: int, name: string, email: string, department: string,
    startDate: string, status: string)

  /** The intern form (`formData`). It carries no id of its own: saving
      supplies one. */
  datatype InternForm = InternForm(
    name: string, email: string, department: string,
    startDate: string, status: string)

  /** One assigned task. `internId` is None when the form's assignee
      select held the empty placeholder or something `parseInt` could not
      read. */
  datatype Task = Task(
    id: int, internId: Option<int>, title: string, description: string,
    deadline: string, status: string)

  /** The task form (`taskFormData`). */
  datatype TaskForm = TaskForm(
    internId: Option<int>, title: string, description: string,
    deadline: string, status: string)

  /** The roster the component starts with. */
  const SeedInterns: seq<Intern> := [
    Intern(1, "Sarah Johnson", "sarah@company.com", "Engineering", "2024-01-15", "Active"),
    Intern(2, "Mike Chen", "mike@company.com", "Design", "2024-02-01", "Active"),
    Intern(3, "Emily Davis", "emily@company.com", "Marketing", "2024-01-20", "Active")]

  /** The tasks the component starts with. */
  const SeedTasks: seq<Task> := [
    Task(1, Some(1), "Complete onboarding", "Finish all onboarding modules", "2024-11-20", "In Progress"),
    Task(2, Some(2), "Design mockups", "Create UI mockups for new feature", "2024-11-25", "Pending")]

  /** The form `handleAddIntern` starts from. */
  const BlankInternForm := InternForm("", "", "", "", "Active")

  /** The form `handleAddTask` starts from. */
  const BlankTaskForm := TaskForm(None, "", "", "", "Pending")

  /** The form filled from an existing intern (`setFormData(intern)`). */
  function FormOf(i: Intern): InternForm
  {
    InternForm(i.name, i.email, i.department, i.startDate, i.status)
  }

  /** `{ ...formData, id }` */
  function InternWithId(f: InternForm, id: int): Intern
  {
    Intern(id, f.name, f.email, f.department, f.startDate, f.status)
  }

  /** `{ ...taskFormData, id }` */
  function TaskWithId(f: TaskForm, id: int): Task
  {
    Task(id, f.internId, f.title, f.description, f.deadline, f.status)
  }

  /** JavaScript falsiness of the assignee: unset, NaN or 0. */
  predicate IsFalsyId(x: Option<int>)
  {
    x == None || x == Some(0)
  }

  /** The required-field check of `handleSaveIntern`: every field but the
      status must be a non-empty string. */
  predicate InternFormComplete(f: InternForm)
  {
    f.name != "" && f.email != "" && f.department != "" && f.startDate != ""
  }

  /** The required-field check of `handleSaveTask`: an assignee, a title
      and a deadline; the description is optional. */
  predicate TaskFormComplete(f: TaskForm)
  {
    !IsFalsyId(f.internId) && f.title != "" && f.deadline != ""
  }

  /** The ids on the roster. */
  function Ids(interns: seq<Intern>): set<int>
  {
    set i | i in interns :: i.id
  }

  /** Every assigned task names an intern on the roster. */
  ghost predicate TasksReferToInterns(interns: seq<Intern>, tasks: seq<Task>)
  {
    forall t :: t in tasks && t.internId.Some? ==> t.internId.value in Ids(interns)
  }

  /** `interns.filter(i => i.id !== id)`: no intern with that id remains;
      every other intern remains as often as before and in its order. */
  function RemoveIntern(interns: seq<Intern>, id: int): (r: seq<Intern>)
    ensures forall x :: x in r <==> x in interns && x.id != id
    ensures id !in Ids(r)
    ensures forall x: Intern :: x.id != id ==> multiset(r)[x] == multiset(interns)[x]
    ensures IsSubsequence(r, interns)
    ensures id !in Ids(interns) ==> r == interns
  {
    var keep := (i: Intern) => i.id != id;
    FilterIsSubsequence(interns, keep);
    assert forall x: Intern :: x.id != id ==> multiset(Filter(interns, keep))[x] == multiset(interns)[x] by {
      forall x: Intern | x.id != id { FilterMultiplicity(interns, keep, x); }
    }
    if id !in Ids(interns) then
      FilterKeepsAll(interns, keep);
      Filter(interns, keep)
    else
      Filter(interns, keep)
  }

  /** `tasks.filter(t => t.internId !== id)`: no task of that intern
      remains; every other task remains as often as before and in its
      order. */
  function RemoveTasksOf(tasks: seq<Task>, id: int): (r: seq<Task>)
    ensures forall t :: t in r <==> t in tasks && t.internId != Some(id)
    ensures forall t: Task :: t.internId != Some(id) ==> multiset(r)[t] == multiset(tasks)[t]
    ensures IsSubsequence(r, tasks)
  {
    var keep := (t: Task) => t.internId != Some(id);
    FilterIsSubsequence(tasks, keep);
    assert forall t: Task :: t.internId != Some(id) ==> multiset(Filter(tasks, keep))[t] == multiset(tasks)[t] by {
      forall t: Task | t.internId != Some(id) { FilterMultiplicity(tasks, keep, t); }
    }
    Filter(tasks, keep)
  }

  /** `tasks.filter(t => t.id !== id)`: no task with that id remains;
      every other task remains as often as before and in its order. */
  function RemoveTask(tasks: seq<Task>, id: int): (r: seq<Task>)
    ensures forall t :: t in r <==> t in tasks && t.id != id
    ensures forall t: Task :: t.id != id ==> multiset(r)[t] == multiset(tasks)[t]
    ensures IsSubsequence(r, tasks)
  {
    var keep := (t: Task) => t.id != id;
    FilterIsSubsequence(tasks, keep);
    assert forall t: Task :: t.id != id ==> multiset(Filter(tasks, keep))[t] == multiset(tasks)[t] by {
      forall t: Task | t.id != id { FilterMultiplicity(tasks, keep, t); }
    }
    Filter(tasks, keep)
  }

  /** `interns.map(i => i.id === id ? replacement : i)`: the same number of
      rows, every row with that id replaced, every other row untouched. */
  function ReplaceIntern(interns: seq<Intern>, id: int, replacement: Intern): (r: seq<Intern>)
    ensures |r| == |interns|
    ensures forall k :: 0 <= k < |r| && interns[k].id == id ==> r[k] == replacement
    ensures forall k :: 0 <= k < |r| && interns[k].id != id ==> r[k] == interns[k]
  {
    seq(|interns|, k requires 0 <= k < |interns| =>
      if interns[k].id == id then replacement else interns[k])
  }

  /** `getInternName`: the name of the first intern with the given id, or
      "Unknown" when no intern has it. */
  function InternName(interns: seq<Intern>, internId: Option<int>): (r: string)
    ensures (forall k :: 0 <= k < |interns| ==> Some(interns[k].id) != internId) ==> r == "Unknown"
    ensures forall k :: 0 <= k < |interns| && Some(interns[k].id) == internId &&
                        (forall j :: 0 <= j < k ==> Some(interns[j].id) != internId)
                        ==> r == interns[k].name
  {
    match FirstIndex(interns, (i: Intern) => Some(i.id) == internId)
    case Some(k) => interns[k].name
    case None => "Unknown"
  }

  /** Editing leaves the set of ids alone, since the replacement keeps the
      edited id. */
  lemma ReplaceInternKeepsIds(interns: seq<Intern>, id: int, f: InternForm)
    ensures Ids(ReplaceIntern(interns, id, InternWithId(f, id))) == Ids(interns)
  {
  }

  /** Editing an id no intern has changes nothing. */
  lemma ReplaceAbsentIsIdentity(interns: seq<Intern>, id: int, replacement: Intern)
    requires id !in Ids(interns)
    ensures ReplaceIntern(interns, id, replacement) == interns
  {
  }

  /** Saving the same edit twice is saving it once. */
  lemma ReplaceInternIdempotent(interns: seq<Intern>, id: int, f: InternForm)
    ensures ReplaceIntern(ReplaceIntern(interns, id, InternWithId(f, id)), id, InternWithId(f, id))
         == ReplaceIntern(interns, id, InternWithId(f, id))
  {
  }

  /** After an edit of an id on the roster, looking that id up gives the
      edited name. */
  lemma ReplaceInternThenName(interns: seq<Intern>, id: int, f: InternForm)
    requires id in Ids(interns)
    ensures InternName(ReplaceIntern(interns, id, InternWithId(f, id)), Some(id)) == f.name
  {
  }

  /** An id on the roster always resolves to the name of an intern that
      has it, never to the "Unknown" fallback (unless that is the name). */
  lemma KnownIdHasName(interns: seq<Intern>, id: int)
    requires id in Ids(interns)
    ensures exists k :: 0 <= k < |interns| && interns[k].id == id &&
                        InternName(interns, Some(id)) == interns[k].name
  {
  }

  /** Deleting an intern together with its tasks keeps every remaining
      task pointing at an intern on the roster. */
  lemma DeleteInternKeepsReferences(interns: seq<Intern>, tasks: seq<Task>, id: int)
    requires TasksReferToInterns(interns, tasks)
    ensures TasksReferToInterns(RemoveIntern(interns, id), RemoveTasksOf(tasks, id))
  {
  }

  /** Deleting one task keeps the others pointing at the roster. */
  lemma DeleteTaskKeepsReferences(interns: seq<Intern>, tasks: seq<Task>, id: int)
    requires TasksReferToInterns(interns, tasks)
    ensures TasksReferToInterns(interns, RemoveTask(tasks, id))
  {
  }

  /** Adding an intern keeps every task pointing at the roster. */
  lemma AddInternKeepsReferences(interns: seq<Intern>, tasks: seq<Task>, f: InternForm, newId: int)
    requires TasksReferToInterns(interns, tasks)
    ensures TasksReferToInterns(interns + [InternWithId(f, newId)], tasks)
  {
  }

  /** Editing an intern keeps every task pointing at the roster. */
  lemma EditInternKeepsReferences(interns: seq<Intern>, tasks: seq<Task>, id: int, f: InternForm)
    requires TasksReferToInterns(interns, tasks)
    ensures TasksReferToInterns(ReplaceIntern(interns, id, InternWithId(f, id)), tasks)
  {
  }

  /** Adding a task whose assignee was picked from the roster (the select
      offers only roster ids) keeps every task pointing at the roster. */
  lemma AddTaskKeepsReferences(interns: seq<Intern>, tasks: seq<Task>, f: TaskForm, newId: int)
    requires TasksReferToInterns(interns, tasks)
    requires f.internId.Some? ==> f.internId.value in Ids(interns)
    ensures TasksReferToInterns(interns, tasks + [TaskWithId(f, newId)])
  {
  }

  /** The admin component's state and its handlers. Confirmation dialogs
      arrive as a boolean, alerts as a `false` result, and `Date.now()` as
      the `now` argument; nothing here assumes that ids are unique. */
  class InternAdminPortal {
    var interns: seq<Intern>
    var tasks: seq<Task>
    var editingIntern: Option<Intern>
    var formData: InternForm
    var taskFormData: TaskForm

    /** The initial state: the seed roster and tasks, no intern being
      edited, blank forms. */
    constructor ()
      ensures interns == SeedInterns && tasks == SeedTasks
      ensures TasksReferToInterns(interns, tasks)
      ensures editingIntern == None
      ensures formData == BlankInternForm && taskFormData == BlankTaskForm
    {
      interns := SeedInterns;
      tasks := SeedTasks;
      editingIntern := None;
      formData := BlankInternForm;
      taskFormData := BlankTaskForm;
      new;
      assert interns[0] in interns && interns[1] in interns;
    }

    /** `handleAddIntern`: start a new intern from a blank form. */
    method AddIntern()
      modifies this
      ensures editingIntern == None && formData == BlankInternForm
      ensures interns == old(interns) && tasks == old(tasks)
      ensures taskFormData == old(taskFormData)
    {
      editingIntern := None;
      formData := BlankInternForm;
    }

    /** `handleEditIntern`: edit `intern`, starting from its own fields. */
    method EditIntern(intern: Intern)
      modifies this
      ensures editingIntern == Some(intern) && formData == FormOf(intern)
      ensures interns == old(interns) && tasks == old(tasks)
      ensures taskFormData == old(taskFormData)
    {
      editingIntern := Some(intern);
      formData := FormOf(intern);
    }

    /** The intern form's inputs (`setFormData({ ...formData, field })`). */
    method SetFormData(f: InternForm)
      modifies this
      ensures formData == f
      ensures interns == old(interns) && tasks == old(tasks)
      ensures editingIntern == old(editingIntern) && taskFormData == old(taskFormData)
    {
      formData := f;
    }

    /** `handleDeleteIntern`: once confirmed, drop the intern and every
      task assigned to it; declined, change nothing. */
    method DeleteIntern(id: int, confirmed: bool)
      modifies this
      ensures confirmed ==> interns == RemoveIntern(old(interns), id)
      ensures confirmed ==> tasks == RemoveTasksOf(old(tasks), id)
      ensures !confirmed ==> interns == old(interns) && tasks == old(tasks)
      ensures TasksReferToInterns(old(interns), old(tasks)) ==> TasksReferToInterns(interns, tasks)
      ensures editingIntern == old(editingIntern) && formData == old(formData)
      ensures taskFormData == old(taskFormData)
    {
      if confirmed {
        if TasksReferToInterns(interns, tasks) {
          DeleteInternKeepsReferences(interns, tasks, id);
        }
        interns := RemoveIntern(interns, id);
        tasks := RemoveTasksOf(tasks, id);
      }
    }

    /** `handleSaveIntern`: reject an incomplete form (the alert); else
      overwrite every intern with the edited id, keeping that id, or
      append a new intern with id `now`. */
    method SaveIntern(now: int) returns (saved: bool)
      modifies this
      ensures saved == InternFormComplete(old(formData))
      ensures !saved ==> interns == old(interns)
      ensures saved && old(editingIntern).Some? ==>
        interns == ReplaceIntern(old(interns), old(editingIntern).value.id,
                                 InternWithId(old(formData), old(editingIntern).value.id))
      ensures saved && old(editingIntern).None? ==>
        interns == old(interns) + [InternWithId(old(formData), now)]
      ensures TasksReferToInterns(old(interns), old(tasks)) ==> TasksReferToInterns(interns, tasks)
      ensures tasks == old(tasks) && editingIntern == old(editingIntern)
      ensures formData == old(formData) && taskFormData == old(taskFormData)
    {
      if !InternFormComplete(formData) {
        return false;
      }
      ghost var references := TasksReferToInterns(interns, tasks);
      match editingIntern {
        case Some(e) =>
          if references {
            EditInternKeepsReferences(interns, tasks, e.id, formData);
          }
          interns := ReplaceIntern(interns, e.id, InternWithId(formData, e.id));
        case None =>
          if references {
            AddInternKeepsReferences(interns, tasks, formData, now);
          }
          interns := interns + [InternWithId(formData, now)];
      }
      saved := true;
    }

    /** `handleAddTask`: start a new task from a blank form. */
    method AddTask()
      modifies this
      ensures taskFormData == BlankTaskForm
      ensures interns == old(interns) && tasks == old(tasks)
      ensures editingIntern == old(editingIntern) && formData == old(formData)
    {
      taskFormData := BlankTaskForm;
    }

    /** The task form's inputs (`setTaskFormData({ ...taskFormData, field })`). */
    method SetTaskFormData(f: TaskForm)
      modifies this
      ensures taskFormData == f
      ensures interns == old(interns) && tasks == old(tasks)
      ensures editingIntern == old(editingIntern) && formData == old(formData)
    {
      taskFormData := f;
    }

    /** `handleSaveTask`: reject a form without assignee, title or
      deadline (the alert); else append the task with id `now`. */
    method SaveTask(now: int) returns (saved: bool)
      modifies this
      ensures saved == TaskFormComplete(old(taskFormData))
      ensures saved ==> tasks == old(tasks) + [TaskWithId(old(taskFormData), now)]
      ensures !saved ==> tasks == old(tasks)
      ensures interns == old(interns) && taskFormData == old(taskFormData)
      ensures editingIntern == old(editingIntern) && formData == old(formData)
    {
      if !TaskFormComplete(taskFormData) {
        return false;
      }
      tasks := tasks + [TaskWithId(taskFormData, now)];
      saved := true;
    }

    /** `handleDeleteTask`: once confirmed, drop every task with that id;
      declined, change nothing. */
    method DeleteTask(id: int, confirmed: bool)
      modifies this
      ensures tasks == if confirmed then RemoveTask(old(tasks), id) else old(tasks)
      ensures TasksReferToInterns(old(interns), old(tasks)) ==> TasksReferToInterns(interns, tasks)
      ensures interns == old(interns) && taskFormData == old(taskFormData)
      ensures editingIntern == old(editingIntern) && formData == old(formData)
    {
      if confirmed {
        tasks := RemoveTask(tasks, id);
      }
    }
  }
}
