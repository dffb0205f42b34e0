/** The four summary cards of the dashboard (src/components/dashboard/TaskSummary.tsx):
    tasks assigned to the user, due today, overdue and completed. "Due today"
    compares calendar days; the local-midnight computation (`setHours(0, 0, 0, 0)`)
    is the parameter `dayStart`, which maps an instant to the start of its day. */
module TaskSummary {
  import opened Wrappers
  import opened Domain
  import Seqs
  import TaskStore
  import Dashboard

  datatype Summary = Summary(assignedCount: nat, dueToday: nat, overdue: nat, completed: nat)

  function CompletedPred(): Task -> bool
  {
    (t: Task) => t.status == Completed
  }

  /** Due on the same calendar day as `now` and not completed. */
  predicate DueToday(t: Task, now: int, dayStart: int -> int)
  {
    dayStart(t.dueDate) == dayStart(now) && t.status != Completed
  }

  function DueTodayAt(now: int, dayStart: int -> int): Task -> bool
  {
    (t: Task) => DueToday(t, now, dayStart)
  }

  function Overdue(tasks: seq<Task>, user: Option<User>, now: int): (r: seq<Task>)
    ensures forall t :: t in r <==> t in Dashboard.AssignedTasks(tasks, user) && t.dueDate < now && t.status != Completed
  {
    TaskStore.GetOverdueTasks(Dashboard.AssignedTasks(tasks, user), now)
  }

  function CompletedTasks(tasks: seq<Task>, user: Option<User>): (r: seq<Task>)
    ensures forall t :: t in r <==> t in Dashboard.AssignedTasks(tasks, user) && t.status == Completed
  {
    Seqs.Filter(Dashboard.AssignedTasks(tasks, user), CompletedPred())
  }

  function TasksDueToday(tasks: seq<Task>, user: Option<User>, now: int, dayStart: int -> int): (r: seq<Task>)
    ensures forall t :: t in r <==>
      (t in Dashboard.AssignedTasks(tasks, user) && dayStart(t.dueDate) == dayStart(now) && t.status != Completed)
  {
    Seqs.Filter(Dashboard.AssignedTasks(tasks, user), DueTodayAt(now, dayStart))
  }

  /** The four counts. Each is at most the assigned count, overdue and completed
      tasks never overlap, and neither do due-today and completed ones. */
  function Summarize(tasks: seq<Task>, user: Option<User>, now: int, dayStart: int -> int): (s: Summary)
    ensures s.assignedCount == |Dashboard.AssignedTasks(tasks, user)|
    ensures user.None? ==> s == Summary(0, 0, 0, 0)
    ensures s.overdue + s.completed <= s.assignedCount
    ensures s.dueToday + s.completed <= s.assignedCount
    ensures s.dueToday <= s.assignedCount && s.overdue <= s.assignedCount && s.completed <= s.assignedCount
    ensures s.overdue == |Overdue(tasks, user, now)|
    ensures s.dueToday == |TasksDueToday(tasks, user, now, dayStart)|
    ensures s.completed == |CompletedTasks(tasks, user)|
  {
    var a := Dashboard.AssignedTasks(tasks, user);
    Seqs.FilterDisjointCount(a, TaskStore.OverdueAt(now), CompletedPred());
    Seqs.FilterDisjointCount(a, DueTodayAt(now, dayStart), CompletedPred());
    Summary(|a|, |TasksDueToday(tasks, user, now, dayStart)|, |Overdue(tasks, user, now)|,
            |CompletedTasks(tasks, user)|)
  }

  /** The overdue card counts exactly the tasks the dashboard's overdue tab lists,
      and the cards count each assigned task by its multiplicity. */
  lemma SummaryMatchesDashboard(tasks: seq<Task>, user: Option<User>, now: int, dayStart: int -> int)
    ensures Summarize(tasks, user, now, dayStart).overdue == |Dashboard.OverdueTasks(tasks, user, now)|
    ensures var a := Dashboard.AssignedTasks(tasks, user);
      forall t :: multiset(Overdue(tasks, user, now))[t] == if TaskStore.IsOverdue(t, now) then multiset(a)[t] else 0
    ensures var a := Dashboard.AssignedTasks(tasks, user);
      forall t :: multiset(CompletedTasks(tasks, user))[t] == if t.status == Completed then multiset(a)[t] else 0
    ensures var a := Dashboard.AssignedTasks(tasks, user);
      forall t :: multiset(TasksDueToday(tasks, user, now, dayStart))[t] == if DueToday(t, now, dayStart) then multiset(a)[t] else 0
  {
    var over := Overdue(tasks, user, now);
    var tab := Dashboard.OverdueTasks(tasks, user, now);
    assert multiset(tab) == multiset(over);
    assert |tab| == |multiset(tab)| == |multiset(over)| == |over|;
  }

  /** An open task due earlier today is counted twice: as overdue and as due today. */
  lemma DueEarlierTodayCountedTwice(tasks: seq<Task>, user: Option<User>, now: int, dayStart: int -> int, t: Task)
    requires t in Dashboard.AssignedTasks(tasks, user)
    requires t.status != Completed && t.dueDate < now && dayStart(t.dueDate) == dayStart(now)
    ensures t in Overdue(tasks, user, now) && t in TasksDueToday(tasks, user, now, dayStart)
  {
  }

  /** The overdue card is highlighted exactly when something is overdue. */
  function OverdueCardClass(s: Summary): (c: string)
    ensures c == "border-red-200" <==> s.overdue > 0
    ensures c == "" <==> s.overdue == 0
  {
    if s.overdue > 0 then "border-red-200" else ""
  }
}
