/** The dashboard greeting (src/components/dashboard/DashboardHeader.tsx). Unlike the
    rest of the dashboard it filters on `assignedTo === user?.id` without checking
    for a user first, so with nobody signed in it counts the unassigned tasks. */
module DashboardHeader {
  import opened Wrappers
  import opened Domain
  import Seqs
  import TaskStore
  import Dashboard

  function AssignedPred(who: Option<string>): Task -> bool
  {
    (t: Task) => t.assignedTo == who
  }

  /** `tasksAssignedToUser`. */
  function HeaderAssigned(tasks: seq<Task>, user: Option<User>): (r: seq<Task>)
    ensures forall t :: t in r <==> t in tasks && t.assignedTo == UserId(user)
    ensures Seqs.IsSubseq(r, tasks)
    ensures forall t :: multiset(r)[t] == if t.assignedTo == UserId(user) then multiset(tasks)[t] else 0
  {
    Seqs.Filter(tasks, AssignedPred(UserId(user)))
  }

  /** Signed in, the header's list and the dashboard's list hold the same tasks. */
  lemma HeaderMatchesDashboard(tasks: seq<Task>, u: User, t: Task)
    ensures t in HeaderAssigned(tasks, Some(u)) <==> t in Dashboard.AssignedTasks(tasks, Some(u))
  {
  }

  /** Signed out, the header counts exactly the unassigned tasks. */
  lemma SignedOutCountsUnassigned(tasks: seq<Task>, t: Task)
    ensures t in HeaderAssigned(tasks, None) <==> t in tasks && t.assignedTo.None?
  {
  }

  /** `overdueTasks`: the overdue tasks among the header's list, each as often as
      it is listed there. */
  function HeaderOverdue(tasks: seq<Task>, user: Option<User>, now: int): (r: seq<Task>)
    ensures forall t :: t in r <==> t in HeaderAssigned(tasks, user) && t.dueDate < now && t.status != Completed
    ensures Seqs.IsSubseq(r, HeaderAssigned(tasks, user))
    ensures |r| <= |HeaderAssigned(tasks, user)|
    ensures forall t :: multiset(r)[t] == if t.dueDate < now && t.status != Completed
      then multiset(HeaderAssigned(tasks, user))[t] else 0
  {
    TaskStore.GetOverdueTasks(HeaderAssigned(tasks, user), now)
  }

  /** The end of the greeting: the overdue count in red, or "all on schedule". */
  datatype ScheduleNote = OverdueCount(count: nat) | AllOnSchedule

  function Note(tasks: seq<Task>, user: Option<User>, now: int): (n: ScheduleNote)
    ensures n.OverdueCount? <==> |HeaderOverdue(tasks, user, now)| > 0
    ensures n.OverdueCount? ==> n.count == |HeaderOverdue(tasks, user, now)| && n.count <= |HeaderAssigned(tasks, user)|
  {
    var k := |HeaderOverdue(tasks, user, now)|;
    if k > 0 then OverdueCount(k) else AllOnSchedule
  }

  /** Nothing is overdue when every listed task is completed or due now or later. */
  lemma OnScheduleWhenNothingLate(tasks: seq<Task>, user: Option<User>, now: int)
    requires forall t :: t in tasks ==> t.status == Completed || now <= t.dueDate
    ensures Note(tasks, user, now) == AllOnSchedule
  {
    var r := HeaderOverdue(tasks, user, now);
    assert forall t :: t !in r;
  }
}
