/** The records of the application (src/types/index.ts). Timestamps, which the
    application keeps as ISO strings and compares through `new Date(...)`, are
    integers (milliseconds) here. */
module Domain {
  import opened Wrappers

  datatype Status = Todo | InProgress | Review | Completed

  datatype Priority = Low | Medium | High

  /** The wire spelling of a status ('todo', 'in-progress', 'review', 'completed'). */
  function StatusName(s: Status): string
  {
    match s
    case Todo => "todo"
    case InProgress => "in-progress"
    case Review => "review"
    case Completed => "completed"
  }

  /** Reads a status from its wire spelling; any other string is rejected. */
  function ParseStatus(name: string): (r: Option<Status>)
    ensures r.Some? ==> StatusName(r.value) == name
  {
    if name == "todo" then Some(Todo)
    else if name == "in-progress" then Some(InProgress)
    else if name == "review" then Some(Review)
    else if name == "completed" then Some(Completed)
    else None
  }

  /** Every status survives the trip through its spelling. */
  lemma StatusNameRoundTrip(s: Status)
    ensures ParseStatus(StatusName(s)) == Some(s)
  {
  }

  function PriorityName(p: Priority): string
  {
    match p
    case Low => "low"
    case Medium => "medium"
    case High => "high"
  }

  function ParsePriority(name: string): (r: Option<Priority>)
    ensures r.Some? ==> PriorityName(r.value) == name
  {
    if name == "low" then Some(Low)
    else if name == "medium" then Some(Medium)
    else if name == "high" then Some(High)
    else None
  }

  lemma PriorityNameRoundTrip(p: Priority)
    ensures ParsePriority(PriorityName(p)) == Some(p)
  {
  }

  datatype Task = Task(
    id: string,
    title: string,
    description: string,
    createdAt: int,
    updatedAt: int,
    dueDate: int,
    priority: Priority,
    status: Status,
    createdBy: string,
    assignedTo: Option<string>,
    teamId: Option<string>)

  /** A signed-in user. `role` is 'admin', 'manager' or 'user' by declaration, but
      it is copied from the database by an unchecked cast, so any string can occur. */
  datatype User = User(id: string, email: string, name: string, role: string, avatar: Option<string>)

  /** `user?.id`. */
  function UserId(user: Option<User>): (r: Option<string>)
    ensures r.Some? <==> user.Some?
    ensures user.Some? ==> r == Some(user.value.id)
  {
    match user
    case None => None
    case Some(u) => Some(u.id)
  }

  datatype TeamRole = Admin | Member

  function TeamRoleName(r: TeamRole): string
  {
    match r
    case Admin => "admin"
    case Member => "member"
  }

  datatype Team = Team(
    id: string,
    name: string,
    description: Option<string>,
    createdAt: int,
    createdBy: string,
    joinCode: string,
    avatar: Option<string>)

  /** The display fields a team membership carries for its user. */
  datatype MemberProfile = MemberProfile(name: string, email: string, avatar: Option<string>)

  datatype TeamMember = TeamMember(
    id: string,
    teamId: string,
    userId: string,
    role: TeamRole,
    joinedAt: int,
    user: Option<MemberProfile>)
}
