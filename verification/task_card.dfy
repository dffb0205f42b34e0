/** The logic of one task card (src/components/tasks/TaskCard.tsx): the single
    status-advance button, the overdue flag, and the badge texts and colours. */
module TaskCard {
  import opened Wrappers
  import opened Domain
  import opened Text
  import TaskStore

  /** The status the card's action button moves a task to. */
  function NextStatus(s: Status): (r: Status)
    ensures s == Todo ==> r == InProgress
    ensures s == InProgress ==> r == Review
    ensures s == Review ==> r == Completed
    ensures s == Completed ==> r == Todo
  {
    if s != Completed then
      if s == Review then Completed
      else if s == Todo then InProgress else Review
    else Todo
  }

  /** The caption of that button. */
  function ActionLabel(s: Status): (r: string)
    ensures s == Todo ==> r == "Start"
    ensures s == InProgress ==> r == "Review"
    ensures s == Review ==> r == "Complete"
    ensures s == Completed ==> r == "Reopen"
  {
    if s != Completed then
      if s == Review then "Complete"
      else if s == Todo then "Start" else "Review"
    else "Reopen"
  }

  /** The button cycles through the workflow: four presses return to the start,
      and fewer never do. */
  lemma AdvanceCycle(s: Status)
    ensures NextStatus(NextStatus(NextStatus(NextStatus(s)))) == s
    ensures NextStatus(s) != s
    ensures NextStatus(NextStatus(s)) != s
    ensures NextStatus(NextStatus(NextStatus(s))) != s
  {
  }

  /** `handleStatusChange(newStatus)`: the patch it sends to `updateTask` for this
      card's task. */
  function StatusChange(newStatus: Status): TaskStore.TaskPatch
  {
    TaskStore.EmptyPatch.(status := Present(newStatus))
  }

  /** Pressing the card's button changes the status of the tasks with this card's
      id, stamps them, and leaves every other field and every other task alone. */
  lemma PressAdvance(tasks: seq<Task>, card: Task, now: int)
    ensures var r := TaskStore.UpdateTask(tasks, card.id, StatusChange(NextStatus(card.status)), now);
      |r| == |tasks|
      && (forall i :: 0 <= i < |tasks| && tasks[i].id != card.id ==> r[i] == tasks[i])
      && (forall i :: 0 <= i < |tasks| && tasks[i].id == card.id ==>
            r[i] == tasks[i].(status := NextStatus(card.status), updatedAt := now))
  {
  }

  /** The card's border class: red for an overdue task, using the store's own
      overdue test, and none otherwise. */
  function CardBorder(t: Task, now: int): (c: string)
    ensures c == "border-red-400" <==> t.dueDate < now && t.status != Completed
    ensures c == "" <==> !TaskStore.IsOverdue(t, now)
  {
    if TaskStore.IsOverdue(t, now) then "border-red-400" else ""
  }

  /** A listed card is bordered red exactly when the store's overdue query lists it. */
  lemma CardOverdueMatchesStore(tasks: seq<Task>, t: Task, now: int)
    requires t in tasks
    ensures CardBorder(t, now) == "border-red-400" <==> t in TaskStore.GetOverdueTasks(tasks, now)
  {
  }

  /** The status badge text: each hyphen-separated word capitalised, joined by spaces. */
  function StatusLabel(s: Status): string
  {
    Join(MapCapitalize(Split(StatusName(s), '-')), ' ')
  }

  function MapCapitalize(words: seq<string>): (r: seq<string>)
    ensures |r| == |words|
    ensures forall i :: 0 <= i < |words| ==> r[i] == CapitalizeFirst(words[i])
  {
    if |words| == 0 then [] else [CapitalizeFirst(words[0])] + MapCapitalize(words[1..])
  }

  /** The four status badges read "Todo", "In Progress", "Review" and "Completed". */
  lemma StatusLabels()
    ensures StatusLabel(Todo) == "Todo"
    ensures StatusLabel(InProgress) == "In Progress"
    ensures StatusLabel(Review) == "Review"
    ensures StatusLabel(Completed) == "Completed"
  {
    SingleWordLabel(Todo);
    SingleWordLabel(Review);
    SingleWordLabel(Completed);
    SingleWordCaps();
    InProgressWords();
    InProgressCaps();
    InProgressJoin();
  }

  /** A one-word status is shown with its first letter capitalised. */
  lemma SingleWordLabel(s: Status)
    requires s != InProgress
    ensures StatusLabel(s) == CapitalizeFirst(StatusName(s))
  {
    SplitNoSeparator(StatusName(s), '-');
  }

  lemma SingleWordCaps()
    ensures CapitalizeFirst("todo") == "Todo"
    ensures CapitalizeFirst("review") == "Review"
    ensures CapitalizeFirst("completed") == "Completed"
  {
    assert UpperChar('t') == 'T' && UpperChar('r') == 'R' && UpperChar('c') == 'C';
  }

  lemma InProgressWords()
    ensures Split("in-progress", '-') == ["in", "progress"]
  {
    InProgressPieces();
    SplitTwo("in", "progress", '-');
  }

  lemma InProgressPieces()
    ensures "in-progress" == "in" + ['-'] + "progress"
    ensures '-' !in "in" && '-' !in "progress"
  {
  }

  lemma InProgressCaps()
    ensures MapCapitalize(["in", "progress"]) == ["In", "Progress"]
  {
    assert UpperChar('i') == 'I' && UpperChar('p') == 'P';
    assert CapitalizeFirst("in") == "In";
    assert CapitalizeFirst("progress") == "Progress";
  }

  lemma InProgressJoin()
    ensures Join(["In", "Progress"], ' ') == "In Progress"
  {
  }

  /** The priority badge text: the first letter capitalised ("Low", "Medium", "High"). */
  function PriorityLabel(p: Priority): (r: string)
    ensures p == Low ==> r == "Low"
    ensures p == Medium ==> r == "Medium"
    ensures p == High ==> r == "High"
  {
    CapitalizeFirst(PriorityName(p))
  }

  /** The colour classes of the status badge; each status has its own. */
  function StatusColor(s: Status): string
  {
    match s
    case Todo => "bg-gray-200 text-gray-700"
    case InProgress => "bg-blue-100 text-blue-700"
    case Review => "bg-amber-100 text-amber-700"
    case Completed => "bg-green-100 text-green-700"
  }

  /** The colour classes of the priority badge; each priority has its own. */
  function PriorityColor(p: Priority): string
  {
    match p
    case Low => "bg-green-100 text-green-700"
    case Medium => "bg-amber-100 text-amber-700"
    case High => "bg-red-100 text-red-700"
  }

  /** Distinct statuses get distinct badge colours, and so do distinct priorities. */
  lemma ColorsDistinguish(s1: Status, s2: Status, p1: Priority, p2: Priority)
    ensures s1 != s2 ==> StatusColor(s1) != StatusColor(s2)
    ensures p1 != p2 ==> PriorityColor(p1) != PriorityColor(p2)
  {
  }
}
