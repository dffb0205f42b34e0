# Taskify task and team logic in Dafny

Taskify is a task-management web application with teams. This project models its
client-side domain logic as pure Dafny functions over immutable records and
proves properties of them. The modelled logic covers:

- the in-memory task store and its queries (`TaskContext`);
- the views derived from the task list:
  - the task card's status cycle;
  - the task page's search, filters and due-date sort;
  - the dashboard lists and counters;
  - the team page's per-member statistics and completion averages;
- the team and member state kept by `TeamContext` and `use-team`;
- the signed-in user kept by `AuthContext`;
- the small validators and helpers of the forms, dialogs and widgets.

Every call to the backend becomes an input to the operation: `Response<T>` for
a call that returns data, `Ack` for one that only succeeds or fails. Each
context operation is a function from the state before to the state after,
given those outcomes and the clock `now`. Timestamps are integers in
milliseconds. Strings are `seq<char>`, and case conversion and trimming are the
ASCII ones.

Modules follow the source files:

| module | file |
|---|---|
| `TaskStore` | `task_store.dfy` |
| `TaskCard` | `task_card.dfy` |
| `TaskList` | `task_list.dfy` |
| `TaskDialog` | `task_dialog.dfy` |
| `FilterPills` | `filter_pills.dfy` |
| `Dashboard` | `dashboard.dfy` |
| `TaskSummary` | `task_summary.dfy` |
| `DashboardHeader` | `dashboard_header.dfy` |
| `TeamPage` | `team_page.dfy` |
| `TeamContext` | `team_context.dfy` |
| `TeamRoster` (`use-team`) | `team_roster.dfy` |
| `TeamMemberCard` | `team_member_card.dfy` |
| `Auth` | `auth.dfy` |
| `Forms` (login, register, profile and password schemas) | `forms.dfy` |
| `Initials` | `initials.dfy` |
| `Notifications` | `notifications.dfy` |
| `Theme` | `theme.dfy` |
| `InView` | `in_view.dfy` |

Shared modules:

- `Wrappers`: `Option`, `Response`, `Ack`, and `Field` for keys of a partial record.
- `Domain`: the records and enums of `src/types/index.ts`.
- `Seqs`: order-preserving filter and a stable sort.
- `Text`: ASCII case, substring, trim, split and join.
- `Rounding`: integer round-half-up division.

Points where the code differs from its own comments or from what a reader
might expect:

- The task page sorts by due date ascending, earliest first. The comment beside
  the sort says "most recent first".
- The dashboard header counts with `assignedTo === user?.id`. So when nobody is
  signed in it counts the unassigned tasks; the dashboard itself counts none.
- The task store changes local state only. It makes no remote write, no
  optimistic apply with rollback, and no re-fetch. Updating or deleting an id
  that no task has is a silent no-op, not an error.
- An update stamps `updatedAt` with the clock. The new stamp is later than the
  old one only if the clock has advanced, so the model does not claim it.
- The store has no status default: `createTask` stores the status it is given.
  The to-do default comes from the task dialog.

## Model

| member | source | states |
|---|---|---|
| TaskStore.NewTask | src/contexts/TaskContext.tsx:102-109 | the new task carries exactly the caller's seven input fields |
| TaskStore.CreateTask | src/contexts/TaskContext.tsx:99-117 | with nobody signed in the list is unchanged; otherwise exactly one task is appended and every earlier task keeps its place and value; the new task has the fresh id, was created and updated at `now` by the current user, and carries the input's fields |
| TaskStore.Overlay | src/contexts/TaskContext.tsx:121-126 | every key supplied in the partial task overwrites, every key not supplied keeps its old value, and `updatedAt` is `now` even when the patch supplies one |
| TaskStore.OverlayEmpty | src/contexts/TaskContext.tsx:121-126 | a patch with no keys changes nothing but the update stamp |
| TaskStore.OverlayIdempotent | src/contexts/TaskContext.tsx:121-126 | applying the same patch twice at one instant is applying it once |
| TaskStore.UpdateTask | src/contexts/TaskContext.tsx:119-128 | the list keeps its length and order; tasks with another id are untouched and every task with that id is overlaid |
| TaskStore.UpdateUnknownId | src/contexts/TaskContext.tsx:119-128 | updating an id no task has leaves the list as it was |
| TaskStore.DeleteTask | src/contexts/TaskContext.tsx:136-137 | the result holds exactly the tasks with another id, each as often as in the list, as a subsequence of the list in its order |
| TaskStore.DeleteAbsent | src/contexts/TaskContext.tsx:136-137 | deleting an id no task has is a no-op |
| TaskStore.DeleteIdempotent | src/contexts/TaskContext.tsx:136-137 | deleting twice is deleting once |
| TaskStore.GetTaskById | src/contexts/TaskContext.tsx:145-147 | nothing exactly when no task has the id; otherwise the task at the first position holding that id |
| TaskStore.LookupAfterCreate | src/contexts/TaskContext.tsx:99-117 | a task created under an id no task had is what the lookup of that id finds |
| TaskStore.LookupAfterDelete | src/contexts/TaskContext.tsx:136-147 | after a delete the lookup of the deleted id finds nothing |
| TaskStore.LookupAfterUpdate | src/contexts/TaskContext.tsx:119-147 | after an update that keeps the id the lookup finds the first task of that id, overlaid; a patch that renames the tasks leaves nothing under the old id |
| TaskStore.GetTasksByUser | src/contexts/TaskContext.tsx:149-151 | exactly the tasks assigned to the user, as an order-preserving subsequence |
| TaskStore.GetTasksByStatus | src/contexts/TaskContext.tsx:153-155 | exactly the tasks in that status, as an order-preserving subsequence |
| TaskStore.GetOverdueTasks | src/contexts/TaskContext.tsx:157-163 | exactly the tasks due strictly before now and not completed, in store order |
| TaskStore.OverdueBoundary | src/contexts/TaskContext.tsx:157-163 | a task due exactly now, or a completed one, is never overdue |
| TaskStore.OverdueScenario | src/contexts/TaskContext.tsx:157-163 | among an open task due yesterday, one due tomorrow and a completed one due yesterday, only the first is overdue |
| TaskCard.NextStatus | src/components/tasks/TaskCard.tsx:120-153 | the card's button moves todo to in-progress, in-progress to review, review to completed, and completed back to todo |
| TaskCard.ActionLabel | src/components/tasks/TaskCard.tsx:120-153 | the button reads Start, Review, Complete or Reopen for those four statuses |
| TaskCard.AdvanceCycle | src/components/tasks/TaskCard.tsx:120-153 | four presses return to the starting status and no fewer do |
| TaskCard.PressAdvance | src/components/tasks/TaskCard.tsx:26-28 | pressing the button changes only the status and update stamp of the tasks with the card's id; every other task and field is unchanged |
| TaskCard.CardBorder | src/components/tasks/TaskCard.tsx:58-61 | the card is bordered red exactly when the task is due before now and not completed, and has no border class otherwise |
| TaskCard.CardOverdueMatchesStore | src/components/tasks/TaskCard.tsx:58-61 | a listed card is bordered red exactly when the store's overdue query lists the task |
| TaskCard.MapCapitalize | src/components/tasks/TaskCard.tsx:70-72 | each word of the status is capitalised in place and none is added or lost |
| TaskCard.StatusLabels | src/components/tasks/TaskCard.tsx:70-72 | the status badges read "Todo", "In Progress", "Review" and "Completed" |
| TaskCard.SingleWordLabel | src/components/tasks/TaskCard.tsx:70-72 | a one-word status reads as its own spelling with the first letter capitalised |
| TaskCard.InProgressWords | src/components/tasks/TaskCard.tsx:70-72 | splitting "in-progress" at hyphens gives the two words "in" and "progress" |
| TaskCard.PriorityLabel | src/components/tasks/TaskCard.tsx:67 | the priority badges read "Low", "Medium" and "High" |
| TaskCard.ColorsDistinguish | src/components/tasks/TaskCard.tsx:30-56 | distinct statuses get distinct badge colours, and so do distinct priorities |
| TaskList.FilteredTasks | src/components/tasks/TaskList.tsx:27-35 | a task is listed exactly when it matches the search and both drop-downs, and the list keeps store order |
| TaskList.EmptyQueryMatches | src/components/tasks/TaskList.tsx:28-29 | an empty search matches every task |
| TaskList.SearchIgnoresQueryCase | src/components/tasks/TaskList.tsx:28-29 | the search gives the same answer for a query and its lower-case form |
| TaskList.StatusFilterExact | src/components/tasks/TaskList.tsx:31 | a status filter other than 'all' admits exactly the tasks whose status it spells |
| TaskList.PriorityFilterExact | src/components/tasks/TaskList.tsx:32 | a priority filter other than 'all' admits exactly the tasks whose priority it spells |
| TaskList.NoFiltersShowsAll | src/components/tasks/TaskList.tsx:20-35 | with the initial filters every task is listed in store order |
| TaskList.SortedTasks | src/components/tasks/TaskList.tsx:37-40 | the shown list is a permutation of the filtered list, ordered by due date with the earliest first |
| TaskList.SortedShowsExactlyFiltered | src/components/tasks/TaskList.tsx:27-40 | a task is on screen exactly when it is in the store and the filters admit it |
| TaskList.SortedKeepsTies | src/components/tasks/TaskList.tsx:37-40 | tasks due at the same instant keep their store order |
| TaskList.View | src/components/tasks/TaskList.tsx:119-133 | the grid appears exactly when something passes the filters; otherwise the message invites a first task exactly when the store is empty, asks to adjust the filters exactly when it is not, and offers the create button only for an empty store |
| TaskList.EmptyStoreInvites | src/components/tasks/TaskList.tsx:119-133 | an empty store always invites the first task, whatever the filters |
| TaskList.NonEmptyStoreShowsGrid | src/components/tasks/TaskList.tsx:119-133 | a non-empty store with the initial filters always shows the grid |
| TaskDialog.Errors | src/components/tasks/TaskDialog.tsx:53-61 | the title fails exactly when empty, priority and status exactly when they are not enum spellings, and the due date exactly when missing |
| TaskDialog.Parse | src/components/tasks/TaskDialog.tsx:53-61 | the schema yields values exactly when no field fails, and then they carry the typed title, description, enums, date, assignee and team |
| TaskDialog.Defaults | src/components/tasks/TaskDialog.tsx:114-122 | a new task starts with empty text, medium priority, to-do status, due now, assigned to the signed-in user (or "") and in the current team |
| TaskDialog.DefaultsNeedTitle | src/components/tasks/TaskDialog.tsx:53-61 | the defaults fail on the title alone, and pass once a title is typed |
| TaskDialog.Prefill | src/components/tasks/TaskDialog.tsx:103-112 | editing starts from the task's values; an unassigned task is assigned to the signed-in user and a task without a team gets the current team |
| TaskDialog.Submit | src/components/tasks/TaskDialog.tsx:126-149 | invalid values send nothing and leave the dialog open; valid ones update the edited task by its id or create a new one, and close the dialog |
| TaskDialog.SameSevenFields | src/components/tasks/TaskDialog.tsx:126-147 | the update and the create send the same seven fields; the updated task keeps its id and creator |
| TaskDialog.ResubmitUnchanged | src/components/tasks/TaskDialog.tsx:103-149 | submitting a task's prefilled values unchanged rewrites it as it was, apart from the update stamp |
| TaskDialog.CreateFromDefaults | src/components/tasks/TaskDialog.tsx:114-149 | a titled new task becomes one appended to-do, medium-priority task created by and assigned to the user, in the current team, due when the form opened and stamped when it was submitted |
| TaskDialog.PageDialogDispatch | src/components/tasks/TaskList.tsx:42-55 | the dialog opened from "Edit" updates that task, the one opened from "New Task" creates, and after a close the next submit creates again |
| TaskDialog.HandleOpenChange | src/components/tasks/TaskDialog.tsx:83-86 | closing calls `onClose` and opening does not |
| TaskDialog.OpenChangeThenSubmit | src/components/tasks/TaskDialog.tsx:83-86 | on the task page, closing the edit dialog forgets the task so the next submit creates, and an open change keeps it so the submit updates |
| FilterPills.PillLabel | src/components/tasks/FilterPills.tsx:25 | a pill reads its prefix followed by the value with only the first letter capitalised |
| FilterPills.InProgressPillLabel | src/components/tasks/FilterPills.tsx:25 | the in-progress pill reads "In-progress", keeping the hyphen |
| FilterPills.Pills | src/components/tasks/FilterPills.tsx:17-40 | nothing renders exactly when both filters are 'all'; otherwise there is one pill per set filter and no other, the status pill first and the priority pill last, each with its label |
| FilterPills.Clear | src/components/tasks/FilterPills.tsx:27-40 | clearing a pill resets only that filter to 'all' |
| FilterPills.ClearRemovesOnlyThatPill | src/components/tasks/FilterPills.tsx:23-40 | with both filters set, clearing one pill leaves exactly the other pill |
| FilterPills.ClearBoth | src/components/tasks/FilterPills.tsx:17-40 | clearing both pills hides the bar, and the status and priority filters then admit every task |
| FilterPills.Click | src/components/tasks/FilterPills.tsx:27-50 | a pill's button resets its own filter and "Clear all" resets all filters |
| Dashboard.AssignedTasks | src/pages/Dashboard.tsx:37 | nothing without a user; otherwise exactly the tasks assigned to the user, in store order |
| Dashboard.CreatedTasks | src/pages/Dashboard.tsx:38 | nothing without a user; otherwise exactly the tasks the user created, in store order |
| Dashboard.SortByDue | src/pages/Dashboard.tsx:51-53 | a permutation of its input ordered by due date |
| Dashboard.TasksDueSoon | src/pages/Dashboard.tsx:41-53 | a permutation of the user's open tasks due from now to three days ahead, both ends included, earliest first |
| Dashboard.OverdueTasks | src/pages/Dashboard.tsx:56-63 | a permutation of the user's open tasks due before now, the most overdue first |
| Dashboard.DueSoonOverdueDisjoint | src/pages/Dashboard.tsx:41-63 | no task is both due soon and overdue |
| Dashboard.DueSoonOverdueCount | src/pages/Dashboard.tsx:41-63 | the two lists together hold no more tasks than the user is assigned |
| Dashboard.NoUserNoViews | src/pages/Dashboard.tsx:37-63 | without a user all four lists are empty |
| Dashboard.RecentlyUpdated | src/pages/Dashboard.tsx:66-70 | at most five tasks, a sub-multiset of the store and the head of its stable newest-first sort, newest update first; no task updated later than the last one shown is left out |
| Dashboard.SmallStoreAllRecent | src/pages/Dashboard.tsx:66-70 | a store of at most five tasks is shown whole |
| Dashboard.CreatedPreview | src/pages/Dashboard.tsx:136-138 | the first four of the user's created tasks, in store order |
| Dashboard.PreviewOfCreated | src/pages/Dashboard.tsx:136-138 | the preview holds only the user's own tasks from the store, each at most as often as the store does, and all of them when there are at most four |
| TaskSummary.Overdue | src/components/dashboard/TaskSummary.tsx:16-18 | exactly the assigned tasks due before now and not completed |
| TaskSummary.CompletedTasks | src/components/dashboard/TaskSummary.tsx:20 | exactly the assigned tasks that are completed |
| TaskSummary.TasksDueToday | src/components/dashboard/TaskSummary.tsx:23-32 | exactly the assigned open tasks whose calendar day is today's |
| TaskSummary.Summarize | src/components/dashboard/TaskSummary.tsx:13-59 | the assigned count is that of the dashboard; the due-today, overdue and completed counts are the lengths of those lists; every count is zero without a user and at most the assigned count, and completed tasks are counted neither as overdue nor as due today |
| TaskSummary.SummaryMatchesDashboard | src/components/dashboard/TaskSummary.tsx:13-59 | the overdue card counts exactly the tasks of the dashboard's overdue tab, and each card's list holds every qualifying assigned task as often as the assigned list does |
| TaskSummary.DueEarlierTodayCountedTwice | src/components/dashboard/TaskSummary.tsx:16-32 | an open task due earlier today counts both as overdue and as due today |
| TaskSummary.OverdueCardClass | src/components/dashboard/TaskSummary.tsx:62 | the overdue card is marked exactly when something is overdue |
| DashboardHeader.HeaderAssigned | src/components/dashboard/DashboardHeader.tsx:23 | exactly the tasks whose assignee equals the user's id, absent included, in store order |
| DashboardHeader.HeaderMatchesDashboard | src/components/dashboard/DashboardHeader.tsx:23 | for a signed-in user the header counts the same tasks as the dashboard |
| DashboardHeader.SignedOutCountsUnassigned | src/components/dashboard/DashboardHeader.tsx:23 | with nobody signed in the header counts the unassigned tasks |
| DashboardHeader.HeaderOverdue | src/components/dashboard/DashboardHeader.tsx:24-26 | exactly the counted tasks due before now and not completed, each as often as it is counted, so the shown overdue count is their number and never more than the assigned count |
| DashboardHeader.Note | src/components/dashboard/DashboardHeader.tsx:34-39 | the overdue count is shown exactly when positive; otherwise all is on schedule |
| DashboardHeader.OnScheduleWhenNothingLate | src/components/dashboard/DashboardHeader.tsx:34-39 | when every task is done or not yet due the header says all is on schedule |
| TeamPage.CompletionRate | src/pages/TeamPage.tsx:100-102 | zero for no tasks; otherwise within one half of the exact completed percentage, strictly so away from an exact half (so the nearest integer there), with halves rounded up; never above 100 when no more tasks are completed than exist |
| TeamPage.CompletionRateExamples | src/pages/TeamPage.tsx:100-102 | 1 of 3 gives 33, 2 of 3 gives 67, 1 of 2 gives 50, and 0 of 0 gives 0 |
| TeamPage.GetTaskStats | src/pages/TeamPage.tsx:93-112 | counts only the member's tasks; each status count is the number of that member's tasks with that status, the four add up to the total, so the completed count never exceeds it, and the rate is the rounded share completed, at most 100 |
| TeamPage.StatusPartition | src/pages/TeamPage.tsx:95-98 | every task falls in exactly one of the four status counts |
| TeamPage.NoTasksNoStats | src/pages/TeamPage.tsx:93-112 | a member with no tasks has all counts and the rate zero |
| TeamPage.SumBounded | src/pages/TeamPage.tsx:198-200 | the sum of the rates is at most the bound times their number |
| TeamPage.Average | src/pages/TeamPage.tsx:198-200 | zero for no members, otherwise the mean rounded to the nearest integer, halves up; never above 100 when no rate is |
| TeamPage.MemberRates | src/pages/TeamPage.tsx:198-200 | one rate per member, each that member's completion rate |
| TeamPage.TeamAverage | src/pages/TeamPage.tsx:198-200 | zero for an empty team and never above 100 |
| TeamPage.AllDoneAveragesHundred | src/pages/TeamPage.tsx:198-200 | when every member's rate is 100 the average is 100 |
| TeamPage.HandleInvite | src/pages/TeamPage.tsx:114-132 | a blank address or one without '@' is refused with the dialog unchanged; otherwise the invitation goes to that address, the field is cleared and the dialog closes |
| TeamPage.InviteRefusedIff | src/pages/TeamPage.tsx:115-118 | refused exactly when every character is whitespace or there is no '@' |
| TeamPage.OpenMessageDialog | src/pages/TeamPage.tsx:155-158 | the dialog opens on that member and keeps the draft |
| TeamPage.HandleSendMessage | src/pages/TeamPage.tsx:134-153 | a blank message or no recipient sends nothing and changes nothing; otherwise the message goes to the selected member and the draft and selection are cleared |
| TeamPage.OpenThenSend | src/pages/TeamPage.tsx:134-158 | a draft with a visible character, sent after opening the dialog on a member, reaches that member |
| TeamContext.FromRow | src/contexts/TeamContext.tsx:67-75 | the renamed columns are copied; an empty or missing description or avatar becomes absent, and a non-empty one is kept |
| TeamContext.RowRoundTrip | src/contexts/TeamContext.tsx:67-75 | writing a team as a row and mapping it back gives the team exactly when it has no empty description or avatar |
| TeamContext.FromRowNormal | src/contexts/TeamContext.tsx:67-75 | a mapped team survives the round trip |
| TeamContext.MapRows | src/contexts/TeamContext.tsx:67-75 | one team per row, in row order |
| TeamContext.MemberFromRow | src/contexts/TeamContext.tsx:379-390 | a member row keeps its ids, role and join time, and has a user exactly when a profile was found, with 'Unknown User' and "" for a falsy name and email |
| TeamContext.MemberRoundTrip | src/contexts/TeamContext.tsx:379-390 | a member written back as its row and profile maps back to itself exactly when it has no profile or a non-empty name |
| TeamContext.SignedOut | src/contexts/TeamContext.tsx:35-43 | signing out empties the teams and clears the current team |
| TeamContext.FetchUserTeams | src/contexts/TeamContext.tsx:45-99 | loading always ends; an error keeps the state; no memberships empties teams and current; fetched rows become the teams, and the first becomes current when none was chosen; the members are replaced only when that first team's members were loaded, and kept otherwise |
| TeamContext.FetchSelectsMember | src/contexts/TeamContext.tsx:80-84 | a fresh fetch with teams selects one of them |
| TeamContext.CreateTeam | src/contexts/TeamContext.tsx:101-171 | without a user nothing is sent; the team insert is sent exactly when a code could be generated and carries the generated code or the fallback; the creator is inserted as admin exactly when the team row came back; on full success the team is appended and made current, otherwise nothing changes |
| TeamContext.CreateKeepsCurrent | src/contexts/TeamContext.tsx:151-152 | creating keeps the current team among the teams |
| TeamContext.Merge | src/contexts/TeamContext.tsx:189-195 | supplied keys overwrite and the others stay |
| TeamContext.DbUpdate | src/contexts/TeamContext.tsx:176-179 | the backend receives the name only when non-empty and the description and avatar only when defined |
| TeamContext.MergeMatching | src/contexts/TeamContext.tsx:189-192 | only the teams with that id are merged; the list keeps its length and order |
| TeamContext.UpdateTeam | src/contexts/TeamContext.tsx:173-209 | a rejection changes nothing; an acknowledged update merges the matching team, and the current team only when it is that team; members and the loading flag stay |
| TeamContext.UpdateKeepsCurrent | src/contexts/TeamContext.tsx:189-195 | updating keeps the current team among the teams |
| TeamContext.WithoutTeam | src/contexts/TeamContext.tsx:220-221 | exactly the teams with another id, in order |
| TeamContext.RemoveTeamAsWritten | src/contexts/TeamContext.tsx:220-225 | the removal as written: the current team, when removed, is replaced by the first team of the list before the removal |
| TeamContext.RemoveFirstCurrentIsStale | src/contexts/TeamContext.tsx:220-225 | removing the current team when it is first leaves the removed team current |
| TeamContext.RemoveTeam | src/contexts/TeamContext.tsx:220-225 | the removal with the current team taken from the list after the removal |
| TeamContext.RemoveKeepsCurrent | src/contexts/TeamContext.tsx:220-225 | the corrected removal keeps the current team among the teams and never leaves the removed team current |
| TeamContext.RemoveDiffersOnlyInCurrent | src/contexts/TeamContext.tsx:220-225 | the corrected removal differs from the written one only in the current team, and only when the current team is the removed one |
| TeamContext.DeleteTeamAsWritten | src/contexts/TeamContext.tsx:211-239 | a rejected delete changes nothing; an acknowledged one removes the team as written |
| TeamContext.DeleteTeam | src/contexts/TeamContext.tsx:211-239 | a rejected delete changes nothing; an acknowledged one is the corrected removal of that team, so the first remaining team or none replaces a removed current team; members and the loading flag stay, and the current team stays among the teams |
| TeamContext.FindTeam | src/contexts/TeamContext.tsx:318-319 | nothing exactly when no team has the id, otherwise a listed team with that id |
| TeamContext.LeaveTeamAsWritten | src/contexts/TeamContext.tsx:313-351 | the delete is sent exactly when a user is signed in and is not the team's creator; a refusal or rejection changes nothing; success removes the team as written |
| TeamContext.LeaveTeam | src/contexts/TeamContext.tsx:313-351 | the same guard, with the corrected removal, so the current team stays among the teams |
| TeamContext.CreatorCannotLeave | src/contexts/TeamContext.tsx:318-321 | the creator's request to leave is refused with no delete sent and no change |
| TeamContext.JoinTeamByCode | src/contexts/TeamContext.tsx:241-311 | no user or unknown code fails with nothing sent; an existing member succeeds with nothing sent; otherwise a 'member' insert is sent and, when acknowledged, the team is appended and made current |
| TeamContext.JoinKeepsCurrent | src/contexts/TeamContext.tsx:293-294 | joining keeps the current team among the teams |
| TeamContext.ChangeTeamMemberRole | src/contexts/TeamContext.tsx:401-427 | an acknowledged change sets the role of the members with that id only; teams, current team, member count and the loading flag stay |
| TeamContext.RemoveTeamMember | src/contexts/TeamContext.tsx:429-447 | an acknowledged removal keeps exactly the members with another id, in order; teams, current team and the loading flag stay |
| TeamContext.RoleChangeIdempotent | src/contexts/TeamContext.tsx:401-427 | a role change keeps every member's id in place, and repeating it changes nothing |
| TeamContext.RemoveAfterRoleChange | src/contexts/TeamContext.tsx:401-447 | removing a member after changing their role is removing them alone |
| TeamContext.SetCurrentTeam | src/contexts/TeamContext.tsx:467 | the setter replaces only the current team; teams, members and the loading flag stay |
| TeamContext.SelectListedKeepsCurrent | src/contexts/TeamContext.tsx:467 | selecting a listed team, or none, keeps the current team among the teams |
| TeamRoster.FirstMembership | src/hooks/use-team.ts:49-53 | the first team membership exactly when the list is present and non-empty |
| TeamRoster.Transform | src/hooks/use-team.ts:47-65 | a missing name becomes 'Unknown', a missing email '', a missing role 'user'; team role and join date come from the first membership, else 'member' and the fetch time |
| TeamRoster.BareProfileDefaults | src/hooks/use-team.ts:57-63 | a profile with nothing but an id gets all the defaults |
| TeamRoster.OnlyFirstMembershipCounts | src/hooks/use-team.ts:49-53 | memberships after the first do not change the member |
| TeamRoster.TransformAll | src/hooks/use-team.ts:47-65 | one member per profile row, in fetched order |
| TeamRoster.FetchTeamMembers | src/hooks/use-team.ts:20-79 | loading always ends; rows replace the team and clear the error; a failure keeps the team and records the load error |
| TeamRoster.RemoveTeamMember | src/hooks/use-team.ts:82-110 | reports success exactly when acknowledged; success keeps exactly the members with another id, in order; failure changes nothing |
| TeamRoster.RemoveTwice | src/hooks/use-team.ts:93 | removing the same member twice is removing once |
| TeamRoster.UpdateMemberRole | src/hooks/use-team.ts:113-144 | reports success exactly when acknowledged; sets the team role of matching members only and never the global role; the loading flag and the error stay |
| TeamRoster.RoleUpdateIdempotent | src/hooks/use-team.ts:113-144 | a role update keeps every member's id in place, and repeating it changes nothing |
| TeamRoster.RemoveAfterRoleUpdate | src/hooks/use-team.ts:82-144 | removing a member after updating their role is removing them alone |
| TeamRoster.FetchRecovers | src/hooks/use-team.ts:20-79 | a successful fetch gives the same roster whatever came before, a later failure keeps it and reports the error, and the members are the fetched profiles in order |
| TeamRoster.InviteMember | src/hooks/use-team.ts:146-154 | always reports success and changes nothing |
| TeamMemberCard.RoleBadgeVariant | src/components/team/TeamMemberCard.tsx:70-79 | admin gets the default badge, manager the outline one, any other role the secondary one |
| TeamMemberCard.RoleBadgesDistinguish | src/components/team/TeamMemberCard.tsx:70-79 | admin, manager and user get three different badges |
| TeamMemberCard.CompletionColor | src/components/team/TeamMemberCard.tsx:131-133 | red below 30, yellow from 30 to 69, green from 70 |
| TeamMemberCard.ColorMonotone | src/components/team/TeamMemberCard.tsx:131-133 | a higher rate never gets a worse colour |
| TeamMemberCard.UnjoinedShowsMemberBadge | src/components/team/TeamMemberCard.tsx:109 | a member without a membership shows the 'member' badge exactly when the global role is not 'member' |
| TeamMemberCard.AvatarFallback | src/components/team/TeamMemberCard.tsx:99 | the first two characters of the name, upper-cased (fewer for a shorter name) |
| TeamMemberCard.FallbackIgnoresCase | src/components/team/TeamMemberCard.tsx:99 | an upper-cased name gives the same fallback |
| TeamMemberCard.RoleLabel | src/components/team/TeamMemberCard.tsx:105 | the role with its first character upper-cased and the rest unchanged |
| TeamMemberCard.RoleLabels | src/components/team/TeamMemberCard.tsx:105 | the labels read "Admin", "Manager" and "User" |
| TeamMemberCard.TimeStatus | src/components/team/TeamMemberCard.tsx:81-91 | no status without a last-active time; otherwise the time elapsed since then |
| Auth.DefaultAvatar | src/contexts/AuthContext.tsx:87 | the avatar service address followed by the user's id |
| Auth.ToUser | src/contexts/AuthContext.tsx:82-88 | the id and role are copied; a missing email becomes '', a missing name 'User', a missing avatar the default one |
| Auth.ToUserStable | src/contexts/AuthContext.tsx:82-88 | mapping a mapped user's own profile again gives the same user |
| Auth.FetchUserProfile | src/contexts/AuthContext.tsx:68-96 | loading always ends; a found profile becomes the user; otherwise the user is kept |
| Auth.OnAuthStateChange | src/contexts/AuthContext.tsx:29-42 | an event without a session clears the user and ends loading; with one the profile is fetched |
| Auth.SignedOutEventUnauthenticates | src/contexts/AuthContext.tsx:34-40 | after an event without a session nobody is authenticated |
| Auth.SignIn | src/contexts/AuthContext.tsx:98-124 | sign-in reports success exactly when acknowledged and leaves loading on only then; the user is left to the listener |
| Auth.Logout | src/contexts/AuthContext.tsx:159-181 | loading ends either way; an acknowledged logout signs out and a rejected one keeps the user |
| Auth.Overlay | src/contexts/AuthContext.tsx:199 | supplied keys overwrite the local user and the others stay |
| Auth.ProfileUpdateOf | src/contexts/AuthContext.tsx:187-193 | the backend receives the name and the avatar when supplied, never the email |
| Auth.UpdateUserProfile | src/contexts/AuthContext.tsx:183-214 | without a user nothing is sent or changed; otherwise name and avatar are sent, and an acknowledged update overlays every supplied key locally |
| Auth.EmailChangeStaysLocal | src/contexts/AuthContext.tsx:187-199 | a supplied email changes the local user but is not sent |
| Auth.ChangePassword | src/contexts/AuthContext.tsx:216-247 | succeeds exactly when both the check of the current password and the update succeed; the update is attempted only after the check passes; the check uses the user's email or '' |
| Auth.FailedCheckSendsNothing | src/contexts/AuthContext.tsx:216-247 | a wrong current password sends no update and fails whatever the update would answer; a right one fails exactly when the update does |
| Forms.MinLength | src/components/auth/RegisterForm.tsx:23 | no issue exactly when the string is long enough, otherwise the one issue on that field |
| Forms.ProfileIssues | src/components/settings/ProfileForm.tsx:24-34 | no issue exactly when the name has two characters, the email is valid and the bio, if any, has at most 500 |
| Forms.BioBoundary | src/pages/Settings.tsx:33-43 | a missing bio passes, and a given one passes exactly when it has at most 500 characters |
| Forms.ProfileDefaults | src/components/settings/ProfileForm.tsx:44-48 | the form starts from the user's name and email, or empty ones, with an empty bio |
| Forms.ResetFromUser | src/components/settings/ProfileForm.tsx:56-61 | a present user resets the name and email; the bio, and everything without a user, stays |
| Forms.ResetMatchesDefaults | src/components/settings/ProfileForm.tsx:44-61 | the reset restores the default name and email |
| Forms.RegisterIssues | src/components/auth/RegisterForm.tsx:22-30 | no issue exactly when name, email, password length and confirmation all pass; the mismatch issue sits on the confirmation exactly when the passwords differ, and the length issue exactly when the password is short |
| Forms.MismatchOnConfirmOnly | src/components/auth/RegisterForm.tsx:27-30 | a mismatch alone is reported on the confirmation field only |
| Forms.SubmitRegister | src/components/auth/RegisterForm.tsx:52-66 | success shows the confirmation and keeps the form disabled; a failure re-enables it |
| Forms.RegisterFollowsSignIn | src/contexts/AuthContext.tsx:126-158 | `register` settles like sign-in: the form stays loading exactly when the context does, and the confirmation shows once the request has resolved |
| Forms.LoginIssues | src/components/auth/LoginForm.tsx:20-23 | no issue exactly when the email is valid and the password has six characters |
| Forms.DefaultLoginInvalid | src/components/auth/LoginForm.tsx:34-37 | the empty starting form cannot be submitted |
| Forms.SubmitLogin | src/components/auth/LoginForm.tsx:40-49 | loading stays on exactly when sign-in succeeds |
| Forms.LoginFollowsSignIn | src/components/auth/LoginForm.tsx:40-49 | the form stays loading exactly when the context's sign-in resolves, matching the context's loading flag |
| Forms.PasswordIssues | src/pages/Settings.tsx:45-52 | no issue exactly when the current password is given, the new one has eight characters and the confirmation is given and equal; the mismatch issue appears exactly when they differ |
| Forms.SevenCharactersRefused | src/pages/Settings.tsx:47 | a matching pair of seven characters fails on length alone |
| Forms.SettingsStricterThanRegistration | src/pages/Settings.tsx:45-52 | any password the settings page accepts registration accepts too |
| Initials.FirstChars | src/components/dashboard/UserAvatar.tsx:14-16 | the first characters of the non-empty words, one per word, in order |
| Initials.Initials | src/components/dashboard/UserAvatar.tsx:12-18 | one upper-cased letter per non-empty space-separated word, never more than the number of parts |
| Initials.InitialsOfWords | src/components/dashboard/UserAvatar.tsx:12-18 | for words joined by single spaces, the initials are the upper-cased first letters of the words |
| Initials.EmptyWordsIgnored | src/components/dashboard/UserAvatar.tsx:14-16 | an empty word, from repeated spaces, adds no letter |
| Initials.JohnDoe | src/components/dashboard/UserAvatar.tsx:12-18 | 'John Doe' gives 'JD' |
| Initials.MaryAnnLee | src/components/dashboard/UserAvatar.tsx:12-18 | 'Mary Ann Lee' gives 'MAL', with no cap on the length |
| Initials.ShortInitials | src/components/settings/ProfileForm.tsx:78-85 | the first two of those letters, or fewer |
| Initials.MaryAnnLeeShort | src/components/settings/ProfileForm.tsx:78-85 | 'Mary Ann Lee' gives 'MA' in the settings avatar |
| Initials.ProfileFallback | src/components/settings/ProfileForm.tsx:92 | 'U' without a user or a name, the short initials otherwise |
| Notifications.Coalesce | src/components/settings/NotificationsForm.tsx:45-51 | a stored value, false included, wins over the default |
| Notifications.Merge | src/components/settings/NotificationsForm.tsx:42-51 | each setting is the stored one when present and its default otherwise |
| Notifications.MergeEmpty | src/components/settings/NotificationsForm.tsx:22-28 | with nothing stored the merge gives the initial settings: all on except e-mail |
| Notifications.MergeKeepsFalse | src/components/settings/NotificationsForm.tsx:46-50 | a stored false is kept |
| Notifications.Load | src/components/settings/NotificationsForm.tsx:30-60 | without a user, on an error, or with nothing stored the state is unchanged; otherwise it is the merge of the stored settings |
| Notifications.SaveThenLoad | src/components/settings/NotificationsForm.tsx:30-65 | loading what was saved gives back the saved settings |
| Notifications.Toggle | src/components/settings/NotificationsForm.tsx:79-140 | a switch sets its own setting and every other setting stays |
| Notifications.ToggleBack | src/components/settings/NotificationsForm.tsx:79-140 | switching back to the old value restores the settings |
| Theme.InitialTheme | src/components/layout/ThemeToggle.tsx:14-18 | the stored theme when there is one, else dark when the system prefers it, else light |
| Theme.Apply | src/components/layout/ThemeToggle.tsx:31-37 | the 'dark' class is present exactly for the dark theme |
| Theme.Mount | src/components/layout/ThemeToggle.tsx:9-22 | mounting applies the chosen theme and writes nothing to storage |
| Theme.Toggle | src/components/layout/ThemeToggle.tsx:24-29 | light becomes dark and anything else light; the class follows and the new theme is stored |
| Theme.ToggleTwice | src/components/layout/ThemeToggle.tsx:24-29 | toggling a light or dark theme twice restores it and its class |
| Theme.ToggleRun | src/components/layout/ThemeToggle.tsx:9-37 | after mount and any number of presses the dark class marks exactly the dark theme; after a press the theme is light or dark and is the stored one |
| Theme.ToggleSurvivesReload | src/components/layout/ThemeToggle.tsx:14-29 | a toggled theme is the one chosen again on the next mount, whatever the system prefers |
| InView.Observe | src/hooks/use-in-view.ts:19-57 | after the previous run's cleanup, an observer exists exactly when there is an element; the flag is not touched |
| InView.HandleEntry | src/hooks/use-in-view.ts:28-41 | an intersecting entry sets the flag (and disconnects with trigger-once); a non-intersecting one clears it only without trigger-once; without trigger-once the observer stays as it was |
| InView.FollowsLastEntry | src/hooks/use-in-view.ts:28-41 | without trigger-once the flag after a batch is the last entry |
| InView.TriggerOnceBatch | src/hooks/use-in-view.ts:28-41 | with trigger-once the flag after a batch holds exactly when it held before or some entry intersects |
| InView.Deliver | src/hooks/use-in-view.ts:50-51 | nothing reaches a hook that does not observe |
| InView.NoElementStaysFalse | src/hooks/use-in-view.ts:16-21 | without an element the flag stays false through any events |
| InView.RerunWithoutElementFreezes | src/hooks/use-in-view.ts:19-57 | once the effect re-runs without an element, the earlier observer is disconnected and no later callback changes the flag |
| InView.NothingObservedNothingChanges | src/hooks/use-in-view.ts:19-21 | a hook that does not observe is unchanged by any events |
| InView.TriggerOnceStaysTrue | src/hooks/use-in-view.ts:33-39 | with trigger-once a set flag stays set through any later events |
| Domain.StatusNameRoundTrip | src/types/index.ts:2-56 | parsing a status's spelling gives the status back |
| Domain.PriorityNameRoundTrip | src/types/index.ts:2-56 | parsing a priority's spelling gives the priority back |
| Text.JoinSplit | src/components/tasks/TaskCard.tsx:70-72 | joining the parts of a split gives the string back |
| Text.SplitJoin | src/components/dashboard/UserAvatar.tsx:14 | splitting words joined by a separator they do not contain gives the words back |

## Left out

- Backend traffic. The Supabase queries, row-level security and the server are not modelled; each remote call is an input outcome.
- Task persistence. Loading and saving the task list to browser storage (src/contexts/TaskContext.tsx:79-97) is I/O and is not modelled. That includes the quirk that an empty list is never written back (line 94).
- Realtime channel. The subscription in src/hooks/use-task-realtime.ts only invalidates a query cache. It has no local logic.
- Rendering. Toasts, JSX, routing and layout components carry no domain logic.
- Animations. The animation hooks, the animated container and the card's animation timeline are a foreign library with floating-point timing.
- Simulated submits. The timer-based submits of the settings page and the account form are not modelled, nor are the thin settings and appearance wrappers around the backend.
- E-mail syntax. The schema library's e-mail check is a parameter `isEmail` of the schemas.
- Text handling. Case conversion and trimming are ASCII only; Unicode case folding and whitespace are not modelled.
- Dates. Timestamps are integers, so parsing, time zones and daylight saving are not modelled.
  - "Three days from now" is `now + 3 * 86 400 000` ms.
  - The local midnight of `TaskSummary` is a function parameter `dayStart`.
  - A date's ISO string is the timestamp itself.
- Display formatting. Relative-time and locale date formatting are not modelled.
  - TeamMemberCard.TimeStatus: returns the elapsed milliseconds, not the formatted text.
- Join codes. The random join-code fallback is a parameter `fallbackCode`.
- Rounding. Rates use exact rational division rounded half up (`Rounding.RoundDiv`); floating point is not modelled.
- TeamPage.CompletionRate: rounds the exact percentage `100 * completed / total`, while the code rounds the double `(completed / total) * 100`. At an exact half the double can fall just below it: for 23 of 40 the product is 57.49999999999999 in IEEE 754 double arithmetic, so the code shows 57 where the model gives 58 (29 of 200 and 57 of 200 are further cases). The contract therefore fixes the value only away from exact halves, where any nearest-integer rounding agrees; at an exact half it states the model's half-up choice, which the code need not make.
- TeamPage.Average: the code's `sum / count` is a correctly rounded double quotient of two integers, so an exact half is represented exactly and the half-up rounding agrees; the model does not prove this about floating point.
- Member profiles. The per-row profile lookups of `getTeamMembers` are modelled one row at a time (`TeamContext.MemberFromRow`), not as the loop that fetches them.
- Session start. `initializeAuth`, the session object and the details of the remote sign-up call are not modelled; only the listener's effect and the flags are.
- Dashboard dialogs. The dashboard's dialog open/close handlers render only and are not modelled.
- Clear all. The reset behind "Clear all" is implemented by the page that hosts the pills; it is modelled as the `ResetFilters` event.
- TeamContext.FetchUserTeams: a current team chosen earlier is kept as it was, as in the code, even when the fetched rows no longer hold it. So no lemma states that the current team is among the fetched teams.
- TeamPage.TeamAverage: states only the bounds; the rounding of the mean is stated by `TeamPage.Average`, which it applies to `TeamPage.MemberRates`.
- Theme.ToggleTwice: holds only for the two themes the toggle itself produces, because a stored value is cast without a check and any other string toggles to light.

## Findings

| source | as written | input that shows it | evidently intended | confidence | as-written member | corrected member |
|---|---|---|---|---|---|---|
| src/contexts/TeamContext.tsx:221-225 (and 333-337 in `leaveTeam`) | when the deleted or left team is current, the new current team is element 0 of the team list as it was before the removal | teams `[A, B]` with `A` current; delete or leave `A`: `A` is removed from the list but stays current | the current team is chosen from the list after the removal, so it is `B` (or none when no team is left) | not executed | TeamContext.RemoveTeamAsWritten (shown by TeamContext.RemoveFirstCurrentIsStale) | TeamContext.RemoveTeam (proved by TeamContext.RemoveKeepsCurrent) |
