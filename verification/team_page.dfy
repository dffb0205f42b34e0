/** The team page (src/pages/TeamPage.tsx): per-member task statistics with a
    rounded completion rate, the team's average rate, and the input guards of the
    invite and message dialogs. The rates round exact rational ratios half up,
    as `(2a + b) / (2b)` on integers; floating-point division is not modelled. */
module TeamPage {
  import opened Wrappers
  import opened Domain
  import opened Text
  import Seqs
  import TaskStore
  import Rounding

  datatype TaskStats = TaskStats(total: nat, completed: nat, inProgress: nat, review: nat, todo: nat, completionRate: nat)

  /** `Math.round((completed / total) * 100)`, or 0 for nobody's tasks. The model
      rounds the exact percentage, so away from an exact half it is the nearest
      integer; at an exact half it rounds up, where the floating-point product of
      the code can fall just below the half and round down. */
  function CompletionRate(completed: nat, total: nat): (r: nat)
    ensures total == 0 ==> r == 0
    ensures completed <= total ==> r <= 100
    ensures total > 0 ==> (2 * r - 1) * total <= 200 * completed < (2 * r + 1) * total
    ensures total > 0 && (200 * completed) % (2 * total) != total ==> (2 * r - 1) * total < 200 * completed
  {
    if total > 0 then
      assert (200 * completed) % (2 * total) != total ==> (2 * Rounding.RoundDiv(100 * completed, total) - 1) * total < 200 * completed by {
        if (200 * completed) % (2 * total) != total {
          Rounding.RoundDivOffTie(100 * completed, total);
        }
      }
      assert completed <= total ==> Rounding.RoundDiv(100 * completed, total) <= 100 by {
        if completed <= total {
          Rounding.RoundDivAtMost(100 * completed, total, 100);
        }
      }
      Rounding.RoundDiv(100 * completed, total)
    else 0
  }

  /** One of three is 33 per cent, two of three 67, one of two 50. */
  lemma CompletionRateExamples()
    ensures CompletionRate(1, 3) == 33
    ensures CompletionRate(2, 3) == 67
    ensures CompletionRate(1, 2) == 50
    ensures CompletionRate(0, 0) == 0
  {
  }

  function CountStatus(tasks: seq<Task>, s: Status): nat
  {
    |TaskStore.GetTasksByStatus(tasks, s)|
  }

  /** `getTaskStats(userId)`: counts over the tasks assigned to `userId`. */
  function GetTaskStats(tasks: seq<Task>, userId: string): (st: TaskStats)
    ensures st.total == |TaskStore.GetTasksByUser(tasks, userId)|
    ensures st.completed == |TaskStore.GetTasksByStatus(TaskStore.GetTasksByUser(tasks, userId), Completed)|
    ensures st.inProgress == |TaskStore.GetTasksByStatus(TaskStore.GetTasksByUser(tasks, userId), InProgress)|
    ensures st.review == |TaskStore.GetTasksByStatus(TaskStore.GetTasksByUser(tasks, userId), Review)|
    ensures st.todo == |TaskStore.GetTasksByStatus(TaskStore.GetTasksByUser(tasks, userId), Todo)|
    ensures st.completed + st.inProgress + st.review + st.todo == st.total
    ensures st.completed <= st.total && st.completionRate <= 100
    ensures st.completionRate == CompletionRate(st.completed, st.total)
  {
    var mine := TaskStore.GetTasksByUser(tasks, userId);
    StatusPartition(mine);
    var done := CountStatus(mine, Completed);
    TaskStats(|mine|, done, CountStatus(mine, InProgress), CountStatus(mine, Review),
              CountStatus(mine, Todo), CompletionRate(done, |mine|))
  }

  /** Every task has exactly one of the four statuses, so the four counts add up. */
  lemma {:induction false} StatusPartition(tasks: seq<Task>)
    ensures CountStatus(tasks, Completed) + CountStatus(tasks, InProgress)
          + CountStatus(tasks, Review) + CountStatus(tasks, Todo) == |tasks|
    decreases |tasks|
  {
    if |tasks| > 0 {
      StatusPartition(tasks[1..]);
      CountHead(tasks, Completed);
      CountHead(tasks, InProgress);
      CountHead(tasks, Review);
      CountHead(tasks, Todo);
    }
  }

  /** The first task adds one to its own status's count only. */
  lemma CountHead(tasks: seq<Task>, s: Status)
    requires |tasks| > 0
    ensures CountStatus(tasks, s) == (if tasks[0].status == s then 1 else 0) + CountStatus(tasks[1..], s)
  {
  }

  /** A member with no assigned tasks has all-zero statistics. */
  lemma NoTasksNoStats(tasks: seq<Task>, userId: string)
    requires forall t :: t in tasks ==> t.assignedTo != Some(userId)
    ensures GetTaskStats(tasks, userId) == TaskStats(0, 0, 0, 0, 0, 0)
  {
    var mine := TaskStore.GetTasksByUser(tasks, userId);
    assert forall t :: t !in mine;
  }

  function Sum(xs: seq<nat>): nat
  {
    if |xs| == 0 then 0 else xs[0] + Sum(xs[1..])
  }

  lemma {:induction false} SumBounded(xs: seq<nat>, bound: nat)
    requires forall i :: 0 <= i < |xs| ==> xs[i] <= bound
    ensures Sum(xs) <= bound * |xs|
    decreases |xs|
  {
    if |xs| > 0 {
      SumBounded(xs[1..], bound);
    }
  }

  /** `Math.round(sum / count)` of the members' rates, or 0 for an empty team. */
  function Average(rates: seq<nat>): (r: nat)
    ensures |rates| == 0 ==> r == 0
    ensures (forall i :: 0 <= i < |rates| ==> rates[i] <= 100) ==> r <= 100
    ensures |rates| > 0 ==> (2 * r - 1) * |rates| <= 2 * Sum(rates) < (2 * r + 1) * |rates|
  {
    var n := |rates|;
    if n > 0 then
      assert (forall i :: 0 <= i < |rates| ==> rates[i] <= 100) ==> Rounding.RoundDiv(Sum(rates), n) <= 100 by {
        if forall i :: 0 <= i < |rates| ==> rates[i] <= 100 {
          SumBounded(rates, 100);
          Rounding.RoundDivAtMost(Sum(rates), n, 100);
        }
      }
      Rounding.RoundDiv(Sum(rates), n)
    else 0
  }

  function MemberRates(tasks: seq<Task>, team: seq<User>): (rates: seq<nat>)
    ensures |rates| == |team|
    ensures forall i :: 0 <= i < |team| ==> rates[i] == GetTaskStats(tasks, team[i].id).completionRate
    ensures forall i :: 0 <= i < |rates| ==> rates[i] <= 100
  {
    seq(|team|, i requires 0 <= i < |team| => GetTaskStats(tasks, team[i].id).completionRate)
  }

  /** The "Avg. Task Completion" figure. */
  function TeamAverage(tasks: seq<Task>, team: seq<User>): (r: nat)
    ensures |team| == 0 ==> r == 0
    ensures r <= 100
  {
    Average(MemberRates(tasks, team))
  }

  /** When every member's rate is 100 the average is 100 (a member without tasks
      has rate 0, so it pulls the average down). */
  lemma AllDoneAveragesHundred(rates: seq<nat>)
    requires |rates| > 0 && forall i :: 0 <= i < |rates| ==> rates[i] == 100
    ensures Average(rates) == 100
  {
    SumAllEqual(rates, 100);
    Rounding.RoundDivExact(100, |rates|);
  }

  lemma {:induction false} SumAllEqual(xs: seq<nat>, v: nat)
    requires forall i :: 0 <= i < |xs| ==> xs[i] == v
    ensures Sum(xs) == v * |xs|
    decreases |xs|
  {
    if |xs| > 0 {
      SumAllEqual(xs[1..], v);
    }
  }

  /** The invite dialog. */
  datatype InviteState = InviteState(email: string, dialogOpen: bool)

  datatype InviteOutcome = InvalidEmail | InvitationSent(to: string)

  /** `handleInviteMember`: a blank address or one without '@' is refused with the
      dialog left as it was; otherwise the invitation goes out, the field is
      cleared and the dialog closes. */
  function HandleInvite(st: InviteState): (r: (InviteState, InviteOutcome))
    ensures r.1.InvalidEmail? <==> Trim(st.email) == "" || '@' !in st.email
    ensures r.1.InvalidEmail? ==> r.0 == st
    ensures r.1.InvitationSent? ==> r.1.to == st.email && r.0 == InviteState("", false)
  {
    if Trim(st.email) == "" || '@' !in st.email then (st, InvalidEmail)
    else (InviteState("", false), InvitationSent(st.email))
  }

  /** Stated on characters: refused exactly when the address is all whitespace or
      has no '@'. */
  lemma InviteRefusedIff(st: InviteState)
    ensures HandleInvite(st).1.InvalidEmail? <==>
      (forall i :: 0 <= i < |st.email| ==> IsSpace(st.email[i])) || '@' !in st.email
  {
    TrimEmptyIff(st.email);
  }

  /** The message dialog. */
  datatype MessageState = MessageState(message: string, dialogOpen: bool, selected: Option<User>)

  datatype MessageOutcome = EmptyMessage | MessageSent(to: string)

  /** `openMessageDialog(member)`. */
  function OpenMessageDialog(st: MessageState, member: User): (r: MessageState)
    ensures r.dialogOpen && r.selected == Some(member) && r.message == st.message
  {
    st.(selected := Some(member), dialogOpen := true)
  }

  /** `handleSendMessage`: a blank message, or no selected member, is refused with
      nothing changed; otherwise the message goes to the selected member and the
      text, the dialog and the selection are cleared. */
  function HandleSendMessage(st: MessageState): (r: (MessageState, MessageOutcome))
    ensures r.1.EmptyMessage? <==> Trim(st.message) == "" || st.selected.None?
    ensures r.1.EmptyMessage? ==> r.0 == st
    ensures r.1.MessageSent? ==>
      st.selected.Some? && r.1.to == st.selected.value.name && r.0 == MessageState("", false, None)
  {
    if Trim(st.message) == "" || st.selected.None? then (st, EmptyMessage)
    else (MessageState("", false, None), MessageSent(st.selected.value.name))
  }

  /** After opening the dialog for a member, a message with a visible character
      is sent to that member. */
  lemma OpenThenSend(st: MessageState, member: User, i: nat)
    requires i < |st.message| && !IsSpace(st.message[i])
    ensures HandleSendMessage(OpenMessageDialog(st, member)).1 == MessageSent(member.name)
  {
    TrimEmptyIff(st.message);
  }
}
