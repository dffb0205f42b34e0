/** The task list page (src/components/tasks/TaskList.tsx): a search box and two
    drop-down filters select tasks, which are shown earliest due date first; an
    empty selection explains itself. */
module TaskList {
  import opened Wrappers
  import opened Domain
  import opened Text
  import Seqs

  /** The three filter inputs. The drop-downs hold 'all' or a wire spelling. */
  datatype Filters = Filters(query: string, status: string, priority: string)

  const NoFilters := Filters("", "all", "all")

  /** The search box matches when the lower-cased query occurs in the lower-cased
      title or the lower-cased description. */
  predicate MatchesSearch(t: Task, query: string)
  {
    Contains(ToLower(t.title), ToLower(query)) || Contains(ToLower(t.description), ToLower(query))
  }

  predicate MatchesStatus(t: Task, status: string)
  {
    status == "all" || StatusName(t.status) == status
  }

  predicate MatchesPriority(t: Task, priority: string)
  {
    priority == "all" || PriorityName(t.priority) == priority
  }

  /** The `filteredTasks` predicate. */
  predicate Shown(t: Task, f: Filters)
  {
    MatchesSearch(t, f.query) && MatchesStatus(t, f.status) && MatchesPriority(t, f.priority)
  }

  function ShownBy(f: Filters): Task -> bool
  {
    (t: Task) => Shown(t, f)
  }

  /** `filteredTasks`: exactly the tasks all three filters admit, in store order. */
  function FilteredTasks(tasks: seq<Task>, f: Filters): (r: seq<Task>)
    ensures forall t :: t in r <==>
      (t in tasks && MatchesSearch(t, f.query) && MatchesStatus(t, f.status) && MatchesPriority(t, f.priority))
    ensures Seqs.IsSubseq(r, tasks)
    ensures forall t :: multiset(r)[t] == if MatchesSearch(t, f.query) && MatchesStatus(t, f.status) && MatchesPriority(t, f.priority)
      then multiset(tasks)[t] else 0
  {
    Seqs.Filter(tasks, ShownBy(f))
  }

  /** An empty query matches every task. */
  lemma EmptyQueryMatches(t: Task)
    ensures MatchesSearch(t, "")
  {
    ContainsEmpty(ToLower(t.title));
  }

  /** The search ignores the case of the query. */
  lemma SearchIgnoresQueryCase(t: Task, query: string)
    ensures MatchesSearch(t, query) <==> MatchesSearch(t, ToLower(query))
  {
    ToLowerIdempotent(query);
  }

  /** A status filter other than 'all' admits exactly the tasks with that status;
      one that names no status admits nothing. */
  lemma StatusFilterExact(t: Task, status: string)
    requires status != "all"
    ensures MatchesStatus(t, status) <==> ParseStatus(status) == Some(t.status)
  {
    StatusNameRoundTrip(t.status);
  }

  lemma PriorityFilterExact(t: Task, priority: string)
    requires priority != "all"
    ensures MatchesPriority(t, priority) <==> ParsePriority(priority) == Some(t.priority)
  {
    PriorityNameRoundTrip(t.priority);
  }

  /** With the initial filters every task is listed, in store order. */
  lemma NoFiltersShowsAll(tasks: seq<Task>)
    ensures FilteredTasks(tasks, NoFilters) == tasks
  {
    forall t | t in tasks
      ensures ShownBy(NoFilters)(t)
    {
      EmptyQueryMatches(t);
    }
    Seqs.FilterAll(tasks, ShownBy(NoFilters));
  }

  function DueKey(t: Task): int { t.dueDate }

  /** `sortedTasks`: the filtered tasks rearranged, earliest due date first; tasks
      due at the same instant keep their store order. */
  function SortedTasks(tasks: seq<Task>, f: Filters): (r: seq<Task>)
    ensures multiset(r) == multiset(FilteredTasks(tasks, f))
    ensures forall i, j :: 0 <= i < j < |r| ==> r[i].dueDate <= r[j].dueDate
  {
    var r := Seqs.SortBy(FilteredTasks(tasks, f), DueKey);
    assert forall i, j :: 0 <= i < j < |r| ==> DueKey(r[i]) <= DueKey(r[j]);
    r
  }

  /** A task is on screen exactly when the filters admit it. */
  lemma SortedShowsExactlyFiltered(tasks: seq<Task>, f: Filters, t: Task)
    ensures t in SortedTasks(tasks, f) <==> t in tasks && Shown(t, f)
  {
    var r := SortedTasks(tasks, f);
    assert t in r <==> t in multiset(r);
  }

  /** Among tasks due at the same instant the store order survives the sort. */
  lemma SortedKeepsTies(tasks: seq<Task>, f: Filters, due: int)
    ensures Seqs.WithKey(SortedTasks(tasks, f), DueKey, due) == Seqs.WithKey(FilteredTasks(tasks, f), DueKey, due)
  {
    Seqs.SortStable(FilteredTasks(tasks, f), DueKey, due);
  }

  /** What the page shows below the filters. */
  datatype ListView =
    | Grid(cards: seq<Task>)
    | EmptyState(message: string, createButton: bool)

  const CreateFirstMessage := "Create your first task to get started"
  const AdjustFiltersMessage := "Try adjusting your filters to see more results"

  function View(tasks: seq<Task>, f: Filters): (v: ListView)
    ensures v.Grid? <==> |SortedTasks(tasks, f)| > 0
    ensures v.Grid? ==> v.cards == SortedTasks(tasks, f)
    ensures v.EmptyState? ==> (v.message == CreateFirstMessage <==> |tasks| == 0)
    ensures v.EmptyState? ==> (v.message == AdjustFiltersMessage <==> |tasks| > 0)
    ensures v.EmptyState? ==> (v.createButton <==> |tasks| == 0)
  {
    var shown := SortedTasks(tasks, f);
    if |shown| > 0 then Grid(shown)
    else EmptyState(if |tasks| == 0 then CreateFirstMessage else AdjustFiltersMessage, |tasks| == 0)
  }

  /** An empty store always shows the invitation to create the first task,
      whatever the filters. */
  lemma EmptyStoreInvites(f: Filters)
    ensures View([], f) == EmptyState(CreateFirstMessage, true)
  {
  }

  /** A non-empty store with the initial filters always shows the grid. */
  lemma NonEmptyStoreShowsGrid(tasks: seq<Task>)
    requires |tasks| > 0
    ensures View(tasks, NoFilters).Grid?
  {
    NoFiltersShowsAll(tasks);
  }

  /** The page's dialog: closed, or open to create (no task) or to edit a task. */
  datatype DialogState = DialogState(isOpen: bool, current: Option<Task>)

  const DialogClosed := DialogState(false, None)

  function EditTask(t: Task): (d: DialogState)
    ensures d.isOpen && d.current == Some(t)
  {
    DialogState(true, Some(t))
  }

  function NewTaskDialog(): (d: DialogState)
    ensures d.isOpen && d.current.None?
  {
    DialogState(true, None)
  }

  /** Closing forgets the edited task, so the next "New Task" starts blank. */
  function CloseDialog(d: DialogState): (r: DialogState)
    ensures !r.isOpen && r.current.None?
  {
    DialogClosed
  }
}
