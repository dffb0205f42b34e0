/** The task store of src/contexts/TaskContext.tsx: an ordered list of tasks held
    in memory, changed by create (append), update (overlay and stamp) and delete
    (filter by id), and read through lookups and filters. Each operation is a
    function from the list before to the list after; the current user, the clock
    and the fresh id (`Date.now()` as a string) are parameters. */
module TaskStore {
  import opened Wrappers
  import opened Domain
  import Seqs

  /** What a caller supplies to `createTask`: a task without id, timestamps and creator. */
  datatype TaskInput = TaskInput(
    title: string,
    description: string,
    dueDate: int,
    priority: Priority,
    status: Status,
    assignedTo: Option<string>,
    teamId: Option<string>)

  /** The caller-supplied part of a stored task. */
  function InputOf(t: Task): TaskInput
  {
    TaskInput(t.title, t.description, t.dueDate, t.priority, t.status, t.assignedTo, t.teamId)
  }

  /** `Partial<Task>`: every key may be absent or present. */
  datatype TaskPatch = TaskPatch(
    id: Field<string>,
    title: Field<string>,
    description: Field<string>,
    createdAt: Field<int>,
    updatedAt: Field<int>,
    dueDate: Field<int>,
    priority: Field<Priority>,
    status: Field<Status>,
    createdBy: Field<string>,
    assignedTo: Field<Option<string>>,
    teamId: Field<Option<string>>)

  const EmptyPatch: TaskPatch :=
    TaskPatch(Absent, Absent, Absent, Absent, Absent, Absent, Absent, Absent, Absent, Absent, Absent)

  /** The task `createTask` builds before appending it. */
  function NewTask(input: TaskInput, id: string, now: int, creator: string): (t: Task)
    ensures InputOf(t) == input
  {
    Task(id, input.title, input.description, now, now, input.dueDate, input.priority,
         input.status, creator, input.assignedTo, input.teamId)
  }

  /** `createTask`: without a signed-in user nothing happens; otherwise the new task,
      created and updated at `now` by the current user, is appended. */
  function CreateTask(tasks: seq<Task>, user: Option<User>, input: TaskInput, now: int, newId: string): (r: seq<Task>)
    ensures user.None? ==> r == tasks
    ensures user.Some? ==> |r| == |tasks| + 1 && r[..|tasks|] == tasks
    ensures user.Some? ==>
      var t := r[|tasks|];
      t.id == newId && t.createdAt == now && t.updatedAt == now
      && t.createdBy == user.value.id && InputOf(t) == input
  {
    match user
    case None => tasks
    case Some(u) =>
      var r := tasks + [NewTask(input, newId, now, u.id)];
      assert r[..|tasks|] == tasks;
      r
  }

  /** `{ ...task, ...patch, updatedAt: now }`: supplied keys overwrite, the others
      keep their values, and `updatedAt` is `now` whatever the patch says. */
  function Overlay(t: Task, p: TaskPatch, now: int): (r: Task)
    ensures r.updatedAt == now
    ensures p.title.Absent? ==> r.title == t.title
    ensures p.title.Present? ==> r.title == p.title.value
    ensures p.status.Absent? ==> r.status == t.status
    ensures p.status.Present? ==> r.status == p.status.value
    ensures p.assignedTo.Absent? ==> r.assignedTo == t.assignedTo
    ensures p.assignedTo.Present? ==> r.assignedTo == p.assignedTo.value
    ensures p.id.Absent? ==> r.id == t.id
    ensures p.id.Present? ==> r.id == p.id.value
    ensures p.description.Absent? ==> r.description == t.description
    ensures p.description.Present? ==> r.description == p.description.value
    ensures p.createdAt.Absent? ==> r.createdAt == t.createdAt
    ensures p.createdAt.Present? ==> r.createdAt == p.createdAt.value
    ensures p.dueDate.Absent? ==> r.dueDate == t.dueDate
    ensures p.dueDate.Present? ==> r.dueDate == p.dueDate.value
    ensures p.priority.Absent? ==> r.priority == t.priority
    ensures p.priority.Present? ==> r.priority == p.priority.value
    ensures p.createdBy.Absent? ==> r.createdBy == t.createdBy
    ensures p.createdBy.Present? ==> r.createdBy == p.createdBy.value
    ensures p.teamId.Absent? ==> r.teamId == t.teamId
    ensures p.teamId.Present? ==> r.teamId == p.teamId.value
  {
    Task(p.id.Apply(t.id), p.title.Apply(t.title), p.description.Apply(t.description),
         p.createdAt.Apply(t.createdAt), now, p.dueDate.Apply(t.dueDate),
         p.priority.Apply(t.priority), p.status.Apply(t.status), p.createdBy.Apply(t.createdBy),
         p.assignedTo.Apply(t.assignedTo), p.teamId.Apply(t.teamId))
  }

  /** An empty patch only stamps the update time. */
  lemma OverlayEmpty(t: Task, now: int)
    ensures Overlay(t, EmptyPatch, now) == t.(updatedAt := now)
  {
  }

  /** Overlaying the same patch twice is overlaying it once. */
  lemma OverlayIdempotent(t: Task, p: TaskPatch, now: int)
    ensures Overlay(Overlay(t, p, now), p, now) == Overlay(t, p, now)
  {
  }

  /** `updateTask`: every task whose id is `id` is overlaid with the patch; the list
      keeps its length and order and every other task is unchanged. */
  function UpdateTask(tasks: seq<Task>, id: string, p: TaskPatch, now: int): (r: seq<Task>)
    ensures |r| == |tasks|
    ensures forall i :: 0 <= i < |tasks| && tasks[i].id != id ==> r[i] == tasks[i]
    ensures forall i :: 0 <= i < |tasks| && tasks[i].id == id ==> r[i] == Overlay(tasks[i], p, now)
    decreases |tasks|
  {
    if |tasks| == 0 then []
    else
      var head := if tasks[0].id == id then Overlay(tasks[0], p, now) else tasks[0];
      [head] + UpdateTask(tasks[1..], id, p, now)
  }

  /** Updating an id that no task has leaves the list as it was. */
  lemma UpdateUnknownId(tasks: seq<Task>, id: string, p: TaskPatch, now: int)
    requires forall t :: t in tasks ==> t.id != id
    ensures UpdateTask(tasks, id, p, now) == tasks
  {
  }

  /** `deleteTask`: keeps, in order, exactly the tasks whose id is not `id`. */
  function DeleteTask(tasks: seq<Task>, id: string): (r: seq<Task>)
    ensures forall t :: t in r <==> t in tasks && t.id != id
    ensures Seqs.IsSubseq(r, tasks)
    ensures forall t :: multiset(r)[t] == if t.id != id then multiset(tasks)[t] else 0
  {
    Seqs.Filter(tasks, (t: Task) => t.id != id)
  }

  /** Deleting an absent id changes nothing. */
  lemma DeleteAbsent(tasks: seq<Task>, id: string)
    requires forall t :: t in tasks ==> t.id != id
    ensures DeleteTask(tasks, id) == tasks
  {
    Seqs.FilterAll(tasks, (t: Task) => t.id != id);
  }

  /** Deleting twice is deleting once. */
  lemma DeleteIdempotent(tasks: seq<Task>, id: string)
    ensures DeleteTask(DeleteTask(tasks, id), id) == DeleteTask(tasks, id)
  {
    Seqs.FilterIdempotent(tasks, (t: Task) => t.id != id);
  }

  /** `getTaskById`: the first task with that id, or nothing. */
  function GetTaskById(tasks: seq<Task>, id: string): (r: Option<Task>)
    ensures r.None? <==> forall t :: t in tasks ==> t.id != id
    ensures r.Some? ==> exists i :: 0 <= i < |tasks| && tasks[i] == r.value && r.value.id == id
                                   && forall j :: 0 <= j < i ==> tasks[j].id != id
  {
    var i := Seqs.FirstIndex(tasks, HasId(id));
    if i < |tasks| then Some(tasks[i]) else None
  }

  function HasId(id: string): Task -> bool
  {
    (t: Task) => t.id == id
  }

  /** A task created under a fresh id is what a lookup of that id finds. */
  lemma LookupAfterCreate(tasks: seq<Task>, u: User, input: TaskInput, now: int, newId: string)
    requires forall t :: t in tasks ==> t.id != newId
    ensures GetTaskById(CreateTask(tasks, Some(u), input, now, newId), newId) == Some(NewTask(input, newId, now, u.id))
  {
    var r := CreateTask(tasks, Some(u), input, now, newId);
    assert forall j :: 0 <= j < |tasks| ==> r[j] == tasks[j] && tasks[j] in tasks;
    assert r[|tasks|] == NewTask(input, newId, now, u.id);
  }

  /** After a delete no task is found under the deleted id. */
  lemma LookupAfterDelete(tasks: seq<Task>, id: string)
    ensures GetTaskById(DeleteTask(tasks, id), id).None?
  {
  }

  /** After an update the lookup finds the first task of that id, overlaid; a patch
      that renames the tasks to another id leaves none under the old one. */
  lemma LookupAfterUpdate(tasks: seq<Task>, id: string, p: TaskPatch, now: int)
    ensures (p.id.Absent? || p.id.value == id) ==>
      GetTaskById(UpdateTask(tasks, id, p, now), id)
      == if GetTaskById(tasks, id).Some? then Some(Overlay(GetTaskById(tasks, id).value, p, now)) else None
    ensures p.id.Present? && p.id.value != id ==> GetTaskById(UpdateTask(tasks, id, p, now), id).None?
  {
    var r := UpdateTask(tasks, id, p, now);
    if p.id.Absent? || p.id.value == id {
      assert forall j :: 0 <= j < |tasks| ==> (HasId(id)(r[j]) <==> HasId(id)(tasks[j]));
      Seqs.FirstIndexAgree(r, tasks, HasId(id));
    } else {
      forall t | t in r
        ensures t.id != id
      {
        var j :| 0 <= j < |r| && r[j] == t;
      }
    }
  }

  function AssignedToUser(userId: string): Task -> bool
  {
    (t: Task) => t.assignedTo == Some(userId)
  }

  function HasStatus(s: Status): Task -> bool
  {
    (t: Task) => t.status == s
  }

  /** `getTasksByUser`: the tasks assigned to `userId`, in store order. */
  function GetTasksByUser(tasks: seq<Task>, userId: string): (r: seq<Task>)
    ensures forall t :: t in r <==> t in tasks && t.assignedTo == Some(userId)
    ensures Seqs.IsSubseq(r, tasks)
    ensures forall t :: multiset(r)[t] == if t.assignedTo == Some(userId) then multiset(tasks)[t] else 0
  {
    Seqs.Filter(tasks, AssignedToUser(userId))
  }

  /** `getTasksByStatus`: the tasks in status `s`, in store order. */
  function GetTasksByStatus(tasks: seq<Task>, s: Status): (r: seq<Task>)
    ensures forall t :: t in r <==> t in tasks && t.status == s
    ensures Seqs.IsSubseq(r, tasks)
    ensures forall t :: multiset(r)[t] == if t.status == s then multiset(tasks)[t] else 0
  {
    Seqs.Filter(tasks, HasStatus(s))
  }

  /** A task is overdue when it is due strictly before `now` and not completed. */
  predicate IsOverdue(t: Task, now: int)
  {
    t.dueDate < now && t.status != Completed
  }

  /** The overdue test at a fixed instant, as a filter predicate. */
  function OverdueAt(now: int): Task -> bool
  {
    (t: Task) => IsOverdue(t, now)
  }

  /** `getOverdueTasks`: the overdue tasks, in store order. */
  function GetOverdueTasks(tasks: seq<Task>, now: int): (r: seq<Task>)
    ensures forall t :: t in r <==> t in tasks && t.dueDate < now && t.status != Completed
    ensures Seqs.IsSubseq(r, tasks)
    ensures forall t :: multiset(r)[t] == if t.dueDate < now && t.status != Completed then multiset(tasks)[t] else 0
  {
    Seqs.Filter(tasks, OverdueAt(now))
  }

  /** A task due exactly now is not overdue, and a completed task never is. */
  lemma OverdueBoundary(tasks: seq<Task>, t: Task, now: int)
    requires t in tasks
    requires t.dueDate == now || t.status == Completed
    ensures t !in GetOverdueTasks(tasks, now)
  {
  }

  /** Yesterday's open task is the only overdue one among yesterday's open task,
      tomorrow's open task and yesterday's completed task. */
  lemma OverdueScenario(a: Task, b: Task, c: Task, now: int)
    requires a.dueDate == now - 86_400_000 && a.status == Todo
    requires b.dueDate == now + 86_400_000 && b.status == Todo
    requires c.dueDate == now - 86_400_000 && c.status == Completed
    ensures GetOverdueTasks([a, b, c], now) == [a]
  {
    var p := OverdueAt(now);
    Seqs.FilterCons(c, [], p);
    Seqs.FilterCons(b, [c], p);
    Seqs.FilterCons(a, [b, c], p);
  }
}
