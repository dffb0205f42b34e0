/** The dashboard page (src/pages/Dashboard.tsx): the signed-in user's assigned
    and created tasks, the ones due within three days, the overdue ones, and the
    five most recently updated tasks of the whole store. "Today" is the current
    instant `now`, not midnight. */
module Dashboard {
  import opened Wrappers
  import opened Domain
  import Seqs
  import TaskStore

  const DAY_MS: int := 86_400_000

  /** `threeDaysFromNow`: three days after `now` (daylight-saving shifts ignored). */
  function Horizon(now: int): int { now + 3 * DAY_MS }

  /** `assignedTasks`: the store's tasks assigned to the user; none without a user. */
  function AssignedTasks(tasks: seq<Task>, user: Option<User>): (r: seq<Task>)
    ensures user.None? ==> r == []
    ensures user.Some? ==> forall t :: t in r <==> t in tasks && t.assignedTo == Some(user.value.id)
    ensures Seqs.IsSubseq(r, tasks)
    ensures user.Some? ==> forall t :: multiset(r)[t] == if t.assignedTo == Some(user.value.id) then multiset(tasks)[t] else 0
  {
    match user
    case None => []
    case Some(u) => TaskStore.GetTasksByUser(tasks, u.id)
  }

  function CreatedByPred(userId: string): Task -> bool
  {
    (t: Task) => t.createdBy == userId
  }

  /** `createdTasks`: the store's tasks the user created; none without a user. */
  function CreatedTasks(tasks: seq<Task>, user: Option<User>): (r: seq<Task>)
    ensures user.None? ==> r == []
    ensures user.Some? ==> forall t :: t in r <==> t in tasks && t.createdBy == user.value.id
    ensures Seqs.IsSubseq(r, tasks)
    ensures user.Some? ==> forall t :: multiset(r)[t] == if t.createdBy == user.value.id then multiset(tasks)[t] else 0
  {
    match user
    case None => []
    case Some(u) => Seqs.Filter(tasks, CreatedByPred(u.id))
  }

  /** Due between now and the horizon, both ends included, and not completed. */
  predicate DueSoon(t: Task, now: int)
  {
    now <= t.dueDate <= Horizon(now) && t.status != Completed
  }

  function DueSoonAt(now: int): Task -> bool
  {
    (t: Task) => DueSoon(t, now)
  }

  function DueKey(t: Task): int { t.dueDate }

  /** Sorted by due date, earliest first. */
  predicate ByDueDate(s: seq<Task>)
  {
    forall i, j :: 0 <= i < j < |s| ==> s[i].dueDate <= s[j].dueDate
  }

  function SortByDue(s: seq<Task>): (r: seq<Task>)
    ensures multiset(r) == multiset(s)
    ensures ByDueDate(r)
  {
    var r := Seqs.SortBy(s, DueKey);
    assert forall i, j :: 0 <= i < j < |r| ==> DueKey(r[i]) <= DueKey(r[j]);
    r
  }

  /** `sortedTasksDueSoon`: the assigned tasks due within three days, earliest first. */
  function TasksDueSoon(tasks: seq<Task>, user: Option<User>, now: int): (r: seq<Task>)
    ensures forall t :: t in r <==> t in AssignedTasks(tasks, user) && now <= t.dueDate <= now + 3 * DAY_MS && t.status != Completed
    ensures ByDueDate(r)
    ensures forall t :: multiset(r)[t] == if DueSoon(t, now)
      then multiset(AssignedTasks(tasks, user))[t] else 0
  {
    var soon := Seqs.Filter(AssignedTasks(tasks, user), DueSoonAt(now));
    var r := SortByDue(soon);
    assert forall t :: t in r <==> t in multiset(r);
    r
  }

  /** `sortedOverdueTasks`: the assigned overdue tasks, most overdue first. */
  function OverdueTasks(tasks: seq<Task>, user: Option<User>, now: int): (r: seq<Task>)
    ensures forall t :: t in r <==> t in AssignedTasks(tasks, user) && t.dueDate < now && t.status != Completed
    ensures ByDueDate(r)
    ensures forall t :: multiset(r)[t] == if TaskStore.IsOverdue(t, now)
      then multiset(AssignedTasks(tasks, user))[t] else 0
  {
    var r := SortByDue(TaskStore.GetOverdueTasks(AssignedTasks(tasks, user), now));
    assert forall t :: t in r <==> t in multiset(r);
    r
  }

  /** No task is both due soon and overdue. */
  lemma DueSoonOverdueDisjoint(tasks: seq<Task>, user: Option<User>, now: int, t: Task)
    ensures !(t in TasksDueSoon(tasks, user, now) && t in OverdueTasks(tasks, user, now))
  {
  }

  /** Together the two tabs never hold more tasks than are assigned. */
  lemma DueSoonOverdueCount(tasks: seq<Task>, user: Option<User>, now: int)
    ensures |TasksDueSoon(tasks, user, now)| + |OverdueTasks(tasks, user, now)| <= |AssignedTasks(tasks, user)|
  {
    var a := AssignedTasks(tasks, user);
    Seqs.FilterDisjointCount(a, DueSoonAt(now), TaskStore.OverdueAt(now));
    var soon := Seqs.Filter(a, DueSoonAt(now));
    var over := TaskStore.GetOverdueTasks(a, now);
    assert |SortByDue(soon)| == |multiset(soon)|;
    assert |SortByDue(over)| == |multiset(over)|;
  }

  /** Neither view exists without a signed-in user. */
  lemma NoUserNoViews(tasks: seq<Task>, now: int)
    ensures AssignedTasks(tasks, None) == [] && CreatedTasks(tasks, None) == []
    ensures TasksDueSoon(tasks, None, now) == [] && OverdueTasks(tasks, None, now) == []
  {
  }

  /** Newest update first. */
  function RecencyKey(t: Task): int { -t.updatedAt }

  const RECENT_LIMIT := 5

  /** `recentlyUpdatedTasks`: the whole store sorted by update time, newest first,
      cut to five. */
  function RecentlyUpdated(tasks: seq<Task>): (r: seq<Task>)
    ensures |r| == if |tasks| < RECENT_LIMIT then |tasks| else RECENT_LIMIT
    ensures forall t :: t in r ==> t in tasks
    ensures forall i, j :: 0 <= i < j < |r| ==> r[i].updatedAt >= r[j].updatedAt
    ensures forall t :: t in tasks && |r| > 0 && t.updatedAt > r[|r| - 1].updatedAt ==> t in r
    ensures multiset(r) <= multiset(tasks)
    ensures r == Seqs.SortBy(tasks, RecencyKey)[..|r|]
  {
    var s := Seqs.SortBy(tasks, RecencyKey);
    var n := if |s| < RECENT_LIMIT then |s| else RECENT_LIMIT;
    NewestPrefix(tasks, s, n);
    assert s == s[..n] + s[n..];
    assert multiset(s[..n]) <= multiset(s) by {
      assert multiset(s) == multiset(s[..n]) + multiset(s[n..]);
    }
    s[..n]
  }

  /** The facts `RecentlyUpdated` promises, for any cut of the sorted store. */
  lemma NewestPrefix(tasks: seq<Task>, s: seq<Task>, n: nat)
    requires multiset(s) == multiset(tasks) && Seqs.SortedBy(s, RecencyKey)
    requires n <= |s|
    ensures forall t :: t in s[..n] ==> t in tasks
    ensures forall i, j :: 0 <= i < j < n ==> s[i].updatedAt >= s[j].updatedAt
    ensures forall t :: t in tasks && n > 0 && t.updatedAt > s[n - 1].updatedAt ==> t in s[..n]
  {
    assert forall t :: t in s <==> t in multiset(s);
    assert forall t :: t in s[..n] ==> t in s;
    assert forall i, j :: 0 <= i < j < n ==> RecencyKey(s[i]) <= RecencyKey(s[j]);
    forall t | t in tasks && n > 0 && t.updatedAt > s[n - 1].updatedAt
      ensures t in s[..n]
    {
      assert t in multiset(tasks);
      Seqs.PrefixKeepsSmaller(s, RecencyKey, n, t);
    }
  }

  /** A store of at most five tasks is shown whole, newest first. */
  lemma SmallStoreAllRecent(tasks: seq<Task>)
    requires |tasks| <= RECENT_LIMIT
    ensures multiset(RecentlyUpdated(tasks)) == multiset(tasks)
  {
    var s := Seqs.SortBy(tasks, RecencyKey);
    assert s[..|s|] == s;
  }

  const CREATED_PREVIEW := 4

  /** The "Created by Me" tab: the first four created tasks, in store order. */
  function CreatedPreview(tasks: seq<Task>, user: Option<User>): (r: seq<Task>)
    ensures |r| <= CREATED_PREVIEW
    ensures var c := CreatedTasks(tasks, user); |r| == (if |c| < CREATED_PREVIEW then |c| else CREATED_PREVIEW) && r == c[..|r|]
  {
    var c := CreatedTasks(tasks, user);
    if |c| < CREATED_PREVIEW then c else c[..CREATED_PREVIEW]
  }

  /** A prefix holds each element at most as often as the whole. */
  lemma PrefixSubMultiset(s: seq<Task>, n: nat)
    requires n <= |s|
    ensures multiset(s[..n]) <= multiset(s)
  {
    assert s == s[..n] + s[n..];
    assert multiset(s) == multiset(s[..n]) + multiset(s[n..]);
  }

  lemma SubMultisetOf(c: seq<Task>, tasks: seq<Task>, userId: string)
    requires forall t :: multiset(c)[t] == if t.createdBy == userId then multiset(tasks)[t] else 0
    ensures multiset(c) <= multiset(tasks)
  {
    forall t ensures multiset(c)[t] <= multiset(tasks)[t] {}
  }

  /** The preview shows only the user's own tasks from the store, each at most as
      often as the store holds it, and all of them when there are at most four. */
  lemma PreviewOfCreated(tasks: seq<Task>, u: User)
    ensures forall t :: t in CreatedPreview(tasks, Some(u)) ==> t in tasks && t.createdBy == u.id
    ensures multiset(CreatedPreview(tasks, Some(u))) <= multiset(tasks)
    ensures |CreatedTasks(tasks, Some(u))| <= CREATED_PREVIEW ==> CreatedPreview(tasks, Some(u)) == CreatedTasks(tasks, Some(u))
  {
    var c := CreatedTasks(tasks, Some(u));
    var r := CreatedPreview(tasks, Some(u));
    PrefixSubMultiset(c, |r|);
    SubMultisetOf(c, tasks, u.id);
  }
}
