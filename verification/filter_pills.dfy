/** The active-filter pills above the task list (src/components/tasks/FilterPills.tsx):
    which pills show, their labels, and what their buttons ask of the list's
    filters. "Clear all" calls a reset supplied by the parent, so it is an event. */
module FilterPills {
  import opened Wrappers
  import opened Domain
  import opened Text
  import TaskList

  datatype PillKind = StatusPill | PriorityPill

  datatype Pill = Pill(kind: PillKind, text: string)

  /** A pill's text: the prefix and the filter value with its first letter
      upper-cased. */
  function PillLabel(prefix: string, value: string): (r: string)
    ensures |r| == |prefix| + |value|
    ensures r[..|prefix|] == prefix && r[|prefix|..] == CapitalizeFirst(value)
  {
    prefix + CapitalizeFirst(value)
  }

  /** Only the first letter changes: 'in-progress' reads 'In-progress', not
      'In Progress' as on the card. */
  lemma InProgressPillLabel()
    ensures CapitalizeFirst("in-progress") == "In-progress"
  {
    assert "in-progress"[1..] == "n-progress";
  }

  /** The rendered pills: none at all (the component renders nothing) when both
      filters are 'all'; otherwise the status pill when the status is filtered,
      then the priority pill when the priority is, followed by "Clear all". */
  function Pills(status: string, priority: string): (r: Option<seq<Pill>>)
    ensures r.None? <==> status == "all" && priority == "all"
    ensures r.Some? ==> ((exists p :: p in r.value && p.kind == StatusPill) <==> status != "all")
    ensures r.Some? ==> ((exists p :: p in r.value && p.kind == PriorityPill) <==> priority != "all")
    ensures r.Some? ==> |r.value| == (if status != "all" then 1 else 0) + (if priority != "all" then 1 else 0)
    ensures r.Some? && status != "all" ==> r.value[0].kind == StatusPill
    ensures r.Some? && priority != "all" ==> r.value[|r.value| - 1].kind == PriorityPill
    ensures r.Some? ==> forall p :: p in r.value && p.kind == StatusPill ==> p.text == PillLabel("Status: ", status)
    ensures r.Some? ==> forall p :: p in r.value && p.kind == PriorityPill ==> p.text == PillLabel("Priority: ", priority)
  {
    var sp, pp := Pill(StatusPill, PillLabel("Status: ", status)), Pill(PriorityPill, PillLabel("Priority: ", priority));
    if status == "all" && priority == "all" then None
    else if priority == "all" then Some([sp])
    else if status == "all" then Some([pp])
    else Some([sp, pp])
  }

  /** A pill's "×" button: only that filter goes back to 'all'. */
  function Clear(f: TaskList.Filters, kind: PillKind): (r: TaskList.Filters)
    ensures r.query == f.query
    ensures kind == StatusPill ==> r.status == "all" && r.priority == f.priority
    ensures kind == PriorityPill ==> r.priority == "all" && r.status == f.status
  {
    match kind
    case StatusPill => f.(status := "all")
    case PriorityPill => f.(priority := "all")
  }

  /** Clearing a pill removes that pill and keeps the other. */
  lemma ClearRemovesOnlyThatPill(f: TaskList.Filters)
    requires f.status != "all" && f.priority != "all"
    ensures Pills(Clear(f, StatusPill).status, Clear(f, StatusPill).priority) == Some([Pill(PriorityPill, PillLabel("Priority: ", f.priority))])
    ensures Pills(Clear(f, PriorityPill).status, Clear(f, PriorityPill).priority) == Some([Pill(StatusPill, PillLabel("Status: ", f.status))])
  {
  }

  /** Clearing both pills hides the row and lifts both filters from every task. */
  lemma ClearBoth(f: TaskList.Filters, t: Task)
    ensures var g := Clear(Clear(f, StatusPill), PriorityPill);
      Pills(g.status, g.priority).None? && TaskList.MatchesStatus(t, g.status) && TaskList.MatchesPriority(t, g.priority)
  {
  }

  /** What a click asks of the task list. */
  datatype PillAction = SetStatusFilter(status: string) | SetPriorityFilter(priority: string) | ResetFilters

  /** The button of a pill sets its filter to 'all'; "Clear all" asks for a reset. */
  function Click(kind: Option<PillKind>): (a: PillAction)
    ensures kind == Some(StatusPill) ==> a == SetStatusFilter("all")
    ensures kind == Some(PriorityPill) ==> a == SetPriorityFilter("all")
    ensures kind.None? ==> a == ResetFilters
  {
    match kind
    case Some(StatusPill) => SetStatusFilter("all")
    case Some(PriorityPill) => SetPriorityFilter("all")
    case None => ResetFilters
  }
}
