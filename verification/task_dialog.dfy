/** The task dialog (src/components/tasks/TaskDialog.tsx): the form schema, the
    values a new or an edited task starts from, the create-or-update dispatch on
    submit and the close handling. Priority and status are held as the strings the
    selects produce; the due date is a timestamp, so its ISO form is the value. */
module TaskDialog {
  import opened Wrappers
  import opened Domain
  import TaskStore
  import TaskList

  /** The form's raw values. */
  datatype FormValues = FormValues(
    title: string,
    description: string,
    priority: string,
    status: string,
    dueDate: Option<int>,
    assignedTo: string,
    teamId: Option<string>)

  /** The schema's fields that can fail. */
  datatype FormField = TitleField | PriorityField | StatusField | DueDateField

  /** `taskSchema`: the fields whose check fails. */
  function Errors(v: FormValues): (e: set<FormField>)
    ensures TitleField in e <==> |v.title| == 0
    ensures PriorityField in e <==> ParsePriority(v.priority).None?
    ensures StatusField in e <==> ParseStatus(v.status).None?
    ensures DueDateField in e <==> v.dueDate.None?
  {
    (if |v.title| == 0 then {TitleField} else {})
    + (if ParsePriority(v.priority).None? then {PriorityField} else {})
    + (if ParseStatus(v.status).None? then {StatusField} else {})
    + (if v.dueDate.None? then {DueDateField} else {})
  }

  /** The values the schema hands to `onSubmit`. */
  datatype Parsed = Parsed(
    title: string,
    description: string,
    priority: Priority,
    status: Status,
    dueDate: int,
    assignedTo: string,
    teamId: Option<string>)

  /** The schema's parse: a result exactly when no field fails. */
  function Parse(v: FormValues): (r: Option<Parsed>)
    ensures r.Some? <==> Errors(v) == {}
    ensures r.Some? ==> r.value.title == v.title && r.value.description == v.description
    ensures r.Some? ==> PriorityName(r.value.priority) == v.priority && StatusName(r.value.status) == v.status
    ensures r.Some? ==> Some(r.value.dueDate) == v.dueDate && r.value.assignedTo == v.assignedTo && r.value.teamId == v.teamId
  {
    if Errors(v) != {} then None
    else
      assert TitleField !in Errors(v) && PriorityField !in Errors(v);
      assert StatusField !in Errors(v) && DueDateField !in Errors(v);
      var p, s := ParsePriority(v.priority).value, ParseStatus(v.status).value;
      ParsePriorityName(v.priority);
      ParseStatusName(v.status);
      Some(Parsed(v.title, v.description, p, s, v.dueDate.value, v.assignedTo, v.teamId))
  }

  lemma ParsePriorityName(name: string)
    requires ParsePriority(name).Some?
    ensures PriorityName(ParsePriority(name).value) == name
  {
  }

  lemma ParseStatusName(name: string)
    requires ParseStatus(name).Some?
    ensures StatusName(ParseStatus(name).value) == name
  {
  }

  /** `currentTeam?.id`. */
  function TeamId(team: Option<Team>): Option<string>
  {
    if team.Some? then Some(team.value.id) else None
  }

  /** The values of a new task: empty title and description, medium priority, to-do,
      due now, assigned to the signed-in user (or "") and in the current team. */
  function Defaults(user: Option<User>, currentTeam: Option<Team>, now: int): (v: FormValues)
    ensures v.title == "" && v.description == ""
    ensures v.priority == PriorityName(Medium) && v.status == StatusName(Todo)
    ensures v.dueDate == Some(now)
    ensures v.assignedTo == (if user.Some? then user.value.id else "")
    ensures v.teamId == (if currentTeam.Some? then Some(currentTeam.value.id) else None)
  {
    FormValues("", "", "medium", "todo", Some(now), OrElse(UserId(user), ""), TeamId(currentTeam))
  }

  /** Without a title the defaults do not pass the schema; with one they do. */
  lemma DefaultsNeedTitle(user: Option<User>, currentTeam: Option<Team>, now: int, title: string)
    ensures Errors(Defaults(user, currentTeam, now)) == {TitleField}
    ensures |title| > 0 ==> Parse(Defaults(user, currentTeam, now).(title := title)).Some?
  {
  }

  /** The values of an edited task: the task's own, except that an unassigned task
      is assigned to the signed-in user and a task without a team gets the current
      team. */
  function Prefill(t: Task, user: Option<User>, currentTeam: Option<Team>): (v: FormValues)
    ensures v.title == t.title && v.description == t.description && v.dueDate == Some(t.dueDate)
    ensures v.priority == PriorityName(t.priority) && v.status == StatusName(t.status)
    ensures Truthy(t.assignedTo) ==> v.assignedTo == t.assignedTo.value
    ensures !Truthy(t.assignedTo) ==> v.assignedTo == OrElse(UserId(user), "")
    ensures v.teamId == if Truthy(t.teamId) then t.teamId else TeamId(currentTeam)
  {
    FormValues(t.title, t.description, PriorityName(t.priority), StatusName(t.status), Some(t.dueDate),
               OrElse(t.assignedTo, OrElse(UserId(user), "")),
               if Truthy(t.teamId) then t.teamId else TeamId(currentTeam))
  }

  /** What a submit sends to the task store. */
  datatype Dispatch = NotSubmitted | Update(id: string, patch: TaskStore.TaskPatch) | Create(input: TaskStore.TaskInput)

  /** The seven fields both branches send. */
  function InputFrom(d: Parsed): (i: TaskStore.TaskInput)
    ensures i.title == d.title && i.priority == d.priority && i.status == d.status && i.dueDate == d.dueDate
  {
    TaskStore.TaskInput(d.title, d.description, d.dueDate, d.priority, d.status, Some(d.assignedTo), d.teamId)
  }

  /** The same seven fields as a patch; a missing team is sent as `undefined` and so
      overwrites. */
  function PatchFrom(d: Parsed): (p: TaskStore.TaskPatch)
    ensures p.id.Absent? && p.createdAt.Absent? && p.updatedAt.Absent? && p.createdBy.Absent?
    ensures p.title == Present(d.title) && p.status == Present(d.status) && p.teamId == Present(d.teamId)
  {
    TaskStore.EmptyPatch.(title := Present(d.title), description := Present(d.description),
      priority := Present(d.priority), status := Present(d.status), dueDate := Present(d.dueDate),
      assignedTo := Present(Some(d.assignedTo)), teamId := Present(d.teamId))
  }

  /** `onSubmit` behind the schema: values that fail are not submitted and the dialog
      stays; otherwise an edited task is updated by id, a new one created, and the
      dialog's `onClose` is called. */
  function Submit(v: FormValues, editing: Option<Task>): (r: (Dispatch, bool))
    ensures r.0.NotSubmitted? <==> Errors(v) != {}
    ensures r.1 <==> !r.0.NotSubmitted?
    ensures r.0.Update? <==> Errors(v) == {} && editing.Some?
    ensures r.0.Update? ==> r.0.id == editing.value.id && r.0.patch == PatchFrom(Parse(v).value)
    ensures r.0.Create? ==> r.0.input == InputFrom(Parse(v).value)
  {
    match Parse(v)
    case None => (NotSubmitted, false)
    case Some(d) =>
      match editing
      case Some(t) => (Update(t.id, PatchFrom(d)), true)
      case None => (Create(InputFrom(d)), true)
  }

  /** The effect of a dispatch on the task list. */
  function Apply(tasks: seq<Task>, d: Dispatch, user: Option<User>, now: int, newId: string): (r: seq<Task>)
    ensures d.NotSubmitted? ==> r == tasks
  {
    match d
    case NotSubmitted => tasks
    case Update(id, p) => TaskStore.UpdateTask(tasks, id, p, now)
    case Create(input) => TaskStore.CreateTask(tasks, user, input, now, newId)
  }

  /** An update and a create built from the same values agree on the seven fields:
      the updated task carries exactly the input a create would have sent. */
  lemma SameSevenFields(t: Task, d: Parsed, now: int)
    ensures TaskStore.InputOf(TaskStore.Overlay(t, PatchFrom(d), now)) == InputFrom(d)
    ensures TaskStore.Overlay(t, PatchFrom(d), now).id == t.id
    ensures TaskStore.Overlay(t, PatchFrom(d), now).createdBy == t.createdBy
  {
  }

  /** Submitting an edited task's prefilled values unchanged rewrites it as it was,
      stamped with the update time, when it has a title, an assignee and a team. */
  lemma ResubmitUnchanged(t: Task, user: Option<User>, currentTeam: Option<Team>, now: int)
    requires |t.title| > 0 && Truthy(t.assignedTo) && Truthy(t.teamId)
    ensures var r := Submit(Prefill(t, user, currentTeam), Some(t));
      r.0.Update? && r.0.id == t.id && TaskStore.Overlay(t, r.0.patch, now) == t.(updatedAt := now)
  {
    var v := Prefill(t, user, currentTeam);
    StatusNameRoundTrip(t.status);
    PriorityNameRoundTrip(t.priority);
    assert Errors(v) == {};
  }

  /** Creating from the defaults with a title gives a to-do, medium-priority task of
      the signed-in creator, assigned to them and in the current team. */
  lemma CreateFromDefaults(tasks: seq<Task>, u: User, currentTeam: Option<Team>, formTime: int, submitTime: int, title: string, newId: string)
    requires |title| > 0
    ensures var r := Apply(tasks, Submit(Defaults(Some(u), currentTeam, formTime).(title := title), None).0, Some(u), submitTime, newId);
      |r| == |tasks| + 1
      && r[|tasks|] == Task(newId, title, "", submitTime, submitTime, formTime, Medium, Todo, u.id, Some(u.id), TeamId(currentTeam))
  {
    var v := Defaults(Some(u), currentTeam, formTime).(title := title);
    assert Errors(v) == {};
  }

  /** The task page opens the dialog on a task from "Edit" and without one from
      "New Task"; a passing submit then updates that task or creates a new one,
      and after a close the next "New Task" creates again. */
  lemma PageDialogDispatch(t: Task, v: FormValues)
    requires Errors(v) == {}
    ensures Submit(v, TaskList.EditTask(t).current).0 == Update(t.id, PatchFrom(Parse(v).value))
    ensures Submit(v, TaskList.NewTaskDialog().current).0 == Create(InputFrom(Parse(v).value))
    ensures Submit(v, TaskList.CloseDialog(TaskList.EditTask(t)).current).0.Create?
  {
  }

  /** `handleOpenChange(open)`: the dialog takes the new state and closing calls
      `onClose`; opening does not. */
  function HandleOpenChange(open: bool): (r: (bool, bool))
    ensures r.0 == open
    ensures r.1 <==> !open
  {
    (open, !open)
  }

  /** On the task page, closing the edit dialog through `handleOpenChange` calls
      `onClose`, which forgets the task, so the next submit creates; an open change
      keeps the task, so the submit still updates it. */
  lemma OpenChangeThenSubmit(t: Task, v: FormValues, open: bool)
    requires Errors(v) == {}
    ensures var r := HandleOpenChange(open);
      var d := if r.1 then TaskList.CloseDialog(TaskList.EditTask(t)) else TaskList.EditTask(t);
      d.isOpen == open && (Submit(v, d.current).0.Create? <==> !open)
  {
  }
}
