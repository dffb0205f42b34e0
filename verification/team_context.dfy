/** The team context (src/contexts/TeamContext.tsx): the user's teams, the current
    team and the current team's members, changed after remote calls. Every remote
    call is an input outcome; each operation maps the state before to the state
    after, and reports the requests it would send where the requests matter. */
module TeamContext {
  import opened Wrappers
  import opened Domain
  import Seqs

  /** A row of the `teams` table as the database returns it; `description` and
      `avatar` may be null or "". */
  datatype TeamRow = TeamRow(
    id: string,
    name: string,
    description: Option<string>,
    createdAt: int,
    createdBy: string,
    joinCode: string,
    avatar: Option<string>)

  /** The row-to-`Team` mapping: columns renamed, a falsy description or avatar dropped. */
  function FromRow(row: TeamRow): (t: Team)
    ensures t.id == row.id && t.name == row.name
    ensures t.createdAt == row.createdAt && t.createdBy == row.createdBy && t.joinCode == row.joinCode
    ensures t.description.Some? <==> Truthy(row.description)
    ensures t.avatar.Some? <==> Truthy(row.avatar)
    ensures t.description.Some? ==> t.description == row.description
    ensures t.avatar.Some? ==> t.avatar == row.avatar
  {
    Team(row.id, row.name, OrUndefined(row.description), row.createdAt, row.createdBy,
         row.joinCode, OrUndefined(row.avatar))
  }

  /** The row a team is stored as. */
  function ToRow(t: Team): TeamRow
  {
    TeamRow(t.id, t.name, t.description, t.createdAt, t.createdBy, t.joinCode, t.avatar)
  }

  /** A team whose optional texts are absent or non-empty, as every mapped team is. */
  predicate Normal(t: Team)
  {
    t.description != Some("") && t.avatar != Some("")
  }

  /** Reading back a stored team gives the team exactly when it is normal. */
  lemma RowRoundTrip(t: Team)
    ensures FromRow(ToRow(t)) == t <==> Normal(t)
  {
  }

  /** Mapping twice changes nothing more. */
  lemma FromRowNormal(row: TeamRow)
    ensures Normal(FromRow(row)) && FromRow(ToRow(FromRow(row))) == FromRow(row)
  {
  }

  function MapRows(rows: seq<TeamRow>): (teams: seq<Team>)
    ensures |teams| == |rows|
    ensures forall i :: 0 <= i < |rows| ==> teams[i] == FromRow(rows[i])
  {
    seq(|rows|, i requires 0 <= i < |rows| => FromRow(rows[i]))
  }

  datatype TeamState = TeamState(
    teams: seq<Team>,
    current: Option<Team>,
    members: seq<TeamMember>,
    isLoading: bool)

  const Initial := TeamState([], None, [], true)

  /** The current team, when there is one, is one of the user's teams. */
  predicate CurrentInTeams(st: TeamState)
  {
    st.current.None? || st.current.value in st.teams
  }

  /** A row of `team_members` with the profile fetched for it (if any). */
  datatype ProfileRow = ProfileRow(name: Option<string>, email: Option<string>, avatar: Option<string>)
  datatype MemberRow = MemberRow(id: string, teamId: string, userId: string, role: TeamRole, joinedAt: int)

  /** One entry of `getTeamMembers`: a missing profile leaves `user` absent; a falsy
      name becomes 'Unknown User' and a falsy email "". */
  function MemberFromRow(row: MemberRow, profile: Option<ProfileRow>): (m: TeamMember)
    ensures m.id == row.id && m.teamId == row.teamId && m.userId == row.userId && m.role == row.role
    ensures m.joinedAt == row.joinedAt
    ensures m.user.Some? <==> profile.Some?
    ensures profile.Some? ==>
      m.user.value == MemberProfile(OrElse(profile.value.name, "Unknown User"), OrElse(profile.value.email, ""), profile.value.avatar)
  {
    var user := match profile
      case None => None
      case Some(p) => Some(MemberProfile(OrElse(p.name, "Unknown User"), OrElse(p.email, ""), p.avatar));
    TeamMember(row.id, row.teamId, row.userId, row.role, row.joinedAt, user)
  }

  /** A member written back as its row and the profile it shows. */
  function MemberRows(m: TeamMember): (MemberRow, Option<ProfileRow>)
  {
    (MemberRow(m.id, m.teamId, m.userId, m.role, m.joinedAt),
     if m.user.Some? then Some(ProfileRow(Some(m.user.value.name), Some(m.user.value.email), m.user.value.avatar)) else None)
  }

  /** Mapping a member's row and profile back gives the member exactly when it has
      no profile or a non-empty name; an empty email comes back as "". */
  lemma MemberRoundTrip(m: TeamMember)
    ensures MemberFromRow(MemberRows(m).0, MemberRows(m).1) == m <==> m.user.None? || m.user.value.name != ""
  {
  }

  /** The effect of the `[user]` effect: signed out, everything is cleared. */
  function SignedOut(st: TeamState): (r: TeamState)
    ensures r.teams == [] && r.current.None? && !r.isLoading && r.members == st.members
    ensures CurrentInTeams(r)
  {
    st.(teams := [], current := None, isLoading := false)
  }

  /** The outcome of the second query of `fetchUserTeams` and of the member fetch
      that may follow it. */
  datatype TeamsFetch = TeamsFetch(rows: Response<seq<TeamRow>>, firstTeamMembers: Response<seq<TeamMember>>)

  /** `fetchUserTeams`. A failed query leaves the teams alone. No memberships clears
      the teams and the current team. Otherwise the teams are the mapped rows and,
      when there was no current team, the first one becomes current and its members
      are loaded. Loading is over in every case. */
  function FetchUserTeams(st: TeamState, memberships: Response<seq<string>>, fetch: TeamsFetch): (r: TeamState)
    ensures !r.isLoading
    ensures memberships.Err? ==> r == st.(isLoading := false)
    ensures memberships == Ok([]) ==> r.teams == [] && r.current.None?
    ensures memberships.Ok? && |memberships.value| > 0 && fetch.rows.Err? ==> r == st.(isLoading := false)
    ensures memberships.Ok? && |memberships.value| > 0 && fetch.rows.Ok? ==>
      r.teams == MapRows(fetch.rows.value)
      && (st.current.None? && |r.teams| > 0 ==> r.current == Some(r.teams[0]))
      && (st.current.Some? || |r.teams| == 0 ==> r.current == st.current)
    ensures r.members == if memberships.Ok? && |memberships.value| > 0 && fetch.rows.Ok? && |fetch.rows.value| > 0
                            && st.current.None? && fetch.firstTeamMembers.Ok?
                         then fetch.firstTeamMembers.value else st.members
  {
    match memberships
    case Err => st.(isLoading := false)
    case Ok(ids) =>
      if |ids| == 0 then st.(teams := [], current := None, isLoading := false)
      else match fetch.rows
        case Err => st.(isLoading := false)
        case Ok(rows) =>
          var teams := MapRows(rows);
          if |teams| > 0 && st.current.None? then
            var members := match fetch.firstTeamMembers
              case Ok(ms) => ms
              case Err => st.members;
            TeamState(teams, Some(teams[0]), members, false)
          else st.(teams := teams, isLoading := false)
  }

  /** With nobody selected, a fetch that finds teams leaves a current team that is
      one of them. */
  lemma FetchSelectsMember(st: TeamState, ids: seq<string>, fetch: TeamsFetch)
    requires st.current.None? && |ids| > 0 && fetch.rows.Ok? && |fetch.rows.value| > 0
    ensures CurrentInTeams(FetchUserTeams(st, Ok(ids), fetch))
    ensures FetchUserTeams(st, Ok(ids), fetch).current.Some?
  {
  }

  /** The insert `createTeam` sends for the team. */
  datatype TeamInsert = TeamInsert(name: string, description: Option<string>, createdBy: string, joinCode: string)

  /** The insert that makes a user a member of a team. */
  datatype MemberInsert = MemberInsert(teamId: string, userId: string, role: TeamRole)

  datatype CreateResult = CreateResult(
    state: TeamState,
    created: Option<Team>,
    teamInsert: Option<TeamInsert>,
    memberInsert: Option<MemberInsert>)

  /** `createTeam`. The join code is the generated one, or the random fallback when
      generation returned nothing. The creator becomes an admin of the new team,
      which is appended and made current. Any failure, or no user, returns nothing
      and leaves the state alone. */
  function CreateTeam(st: TeamState, user: Option<User>, name: string, description: Option<string>,
                      generated: Response<Option<string>>, fallbackCode: string,
                      inserted: Response<Option<TeamRow>>, memberAck: Ack): (r: CreateResult)
    ensures r.created.None? ==> r.state == st
    ensures user.None? ==> r.created.None? && r.teamInsert.None? && r.memberInsert.None?
    ensures r.teamInsert.Some? <==> user.Some? && generated.Ok?
    ensures r.memberInsert.Some? <==> user.Some? && generated.Ok? && inserted.Ok? && inserted.value.Some?
    ensures r.teamInsert.Some? ==>
      user.Some? && generated.Ok? && r.teamInsert.value == TeamInsert(name, description, user.value.id, OrElse(generated.value, fallbackCode))
    ensures r.memberInsert.Some? ==>
      user.Some? && inserted.Ok? && inserted.value.Some?
      && r.memberInsert.value == MemberInsert(inserted.value.value.id, user.value.id, Admin)
    ensures r.created.Some? <==>
      user.Some? && generated.Ok? && inserted.Ok? && inserted.value.Some? && memberAck == Acked
    ensures r.created.Some? ==>
      r.created.value == FromRow(inserted.value.value)
      && r.state == st.(teams := st.teams + [r.created.value], current := r.created)
  {
    match user
    case None => CreateResult(st, None, None, None)
    case Some(u) =>
      match generated
      case Err => CreateResult(st, None, None, None)
      case Ok(code) =>
        var request := TeamInsert(name, description, u.id, OrElse(code, fallbackCode));
        match inserted
        case Err => CreateResult(st, None, Some(request), None)
        case Ok(None) => CreateResult(st, None, Some(request), None)
        case Ok(Some(row)) =>
          var member := MemberInsert(row.id, u.id, Admin);
          match memberAck
          case Rejected => CreateResult(st, None, Some(request), Some(member))
          case Acked =>
            var team := FromRow(row);
            CreateResult(st.(teams := st.teams + [team], current := Some(team)), Some(team), Some(request), Some(member))
  }

  /** Creating a team keeps the current team among the teams. */
  lemma CreateKeepsCurrent(st: TeamState, user: Option<User>, name: string, description: Option<string>,
                           generated: Response<Option<string>>, fallbackCode: string,
                           inserted: Response<Option<TeamRow>>, memberAck: Ack)
    requires CurrentInTeams(st)
    ensures CurrentInTeams(CreateTeam(st, user, name, description, generated, fallbackCode, inserted, memberAck).state)
  {
    var r := CreateTeam(st, user, name, description, generated, fallbackCode, inserted, memberAck);
    if r.created.Some? {
      assert r.state.teams[|st.teams|] == r.created.value;
    }
  }

  /** `Partial<Team>`. */
  datatype TeamPatch = TeamPatch(
    id: Field<string>,
    name: Field<string>,
    description: Field<Option<string>>,
    createdAt: Field<int>,
    createdBy: Field<string>,
    joinCode: Field<string>,
    avatar: Field<Option<string>>)

  /** `{ ...team, ...data }`. */
  function Merge(t: Team, p: TeamPatch): (r: Team)
    ensures p.name.Absent? ==> r.name == t.name
    ensures p.name.Present? ==> r.name == p.name.value
    ensures p.description.Absent? ==> r.description == t.description
    ensures p.description.Present? ==> r.description == p.description.value
    ensures p.id.Absent? ==> r.id == t.id
    ensures p.id.Present? ==> r.id == p.id.value
    ensures p.createdAt.Absent? ==> r.createdAt == t.createdAt
    ensures p.createdAt.Present? ==> r.createdAt == p.createdAt.value
    ensures p.createdBy.Absent? ==> r.createdBy == t.createdBy
    ensures p.createdBy.Present? ==> r.createdBy == p.createdBy.value
    ensures p.joinCode.Absent? ==> r.joinCode == t.joinCode
    ensures p.joinCode.Present? ==> r.joinCode == p.joinCode.value
    ensures p.avatar.Absent? ==> r.avatar == t.avatar
    ensures p.avatar.Present? ==> r.avatar == p.avatar.value
  {
    Team(p.id.Apply(t.id), p.name.Apply(t.name), p.description.Apply(t.description),
         p.createdAt.Apply(t.createdAt), p.createdBy.Apply(t.createdBy), p.joinCode.Apply(t.joinCode),
         p.avatar.Apply(t.avatar))
  }

  /** The columns `updateTeam` sends: the name only when truthy, the description and
      the avatar only when they are defined. */
  datatype TeamUpdate = TeamUpdate(name: Option<string>, description: Option<string>, avatar: Option<string>)

  function DbUpdate(p: TeamPatch): (u: TeamUpdate)
    ensures u.name.Some? <==> p.name.Present? && p.name.value != ""
    ensures u.name.Some? ==> u.name.value == p.name.value
    ensures u.description.Some? <==> p.description.Present? && p.description.value.Some?
    ensures u.description.Some? ==> u.description == p.description.value
    ensures u.avatar.Some? <==> p.avatar.Present? && p.avatar.value.Some?
    ensures u.avatar.Some? ==> u.avatar == p.avatar.value
  {
    TeamUpdate(
      if p.name.Present? && p.name.value != "" then Some(p.name.value) else None,
      if p.description.Present? then p.description.value else None,
      if p.avatar.Present? then p.avatar.value else None)
  }

  function MergeMatching(teams: seq<Team>, teamId: string, p: TeamPatch): (r: seq<Team>)
    ensures |r| == |teams|
    ensures forall i :: 0 <= i < |teams| && teams[i].id != teamId ==> r[i] == teams[i]
    ensures forall i :: 0 <= i < |teams| && teams[i].id == teamId ==> r[i] == Merge(teams[i], p)
  {
    seq(|teams|, i requires 0 <= i < |teams| => if teams[i].id == teamId then Merge(teams[i], p) else teams[i])
  }

  /** `updateTeam`: on success the patch is merged into the teams with that id and,
      when the current team has that id, into the current team; on failure nothing
      changes. The update request is the same either way. */
  function UpdateTeam(st: TeamState, teamId: string, p: TeamPatch, ack: Ack): (r: (TeamState, TeamUpdate))
    ensures r.1 == DbUpdate(p)
    ensures ack == Rejected ==> r.0 == st
    ensures ack == Acked ==>
      r.0.teams == MergeMatching(st.teams, teamId, p) && r.0.members == st.members && r.0.isLoading == st.isLoading
      && (st.current.Some? && st.current.value.id == teamId ==> r.0.current == Some(Merge(st.current.value, p)))
      && (st.current.None? || st.current.value.id != teamId ==> r.0.current == st.current)
  {
    if ack == Rejected then (st, DbUpdate(p))
    else
      var current := if st.current.Some? && st.current.value.id == teamId then Some(Merge(st.current.value, p)) else st.current;
      (st.(teams := MergeMatching(st.teams, teamId, p), current := current), DbUpdate(p))
  }

  /** Updating keeps the current team among the teams. */
  lemma UpdateKeepsCurrent(st: TeamState, teamId: string, p: TeamPatch, ack: Ack)
    requires CurrentInTeams(st)
    ensures CurrentInTeams(UpdateTeam(st, teamId, p, ack).0)
  {
    if ack == Acked && st.current.Some? {
      var i :| 0 <= i < |st.teams| && st.teams[i] == st.current.value;
      assert UpdateTeam(st, teamId, p, ack).0.teams[i] == UpdateTeam(st, teamId, p, ack).0.current.value;
    }
  }

  function IdIsNot(teamId: string): Team -> bool
  {
    (t: Team) => t.id != teamId
  }

  function WithoutTeam(teams: seq<Team>, teamId: string): (r: seq<Team>)
    ensures forall t :: t in r <==> t in teams && t.id != teamId
    ensures Seqs.IsSubseq(r, teams)
    ensures forall t :: multiset(r)[t] == if t.id != teamId then multiset(teams)[t] else 0
  {
    Seqs.Filter(teams, IdIsNot(teamId))
  }

  /** What `deleteTeam` and `leaveTeam` do locally after the remote call succeeds:
      the team leaves the list and, if it was current, the current team becomes
      the first team of the list as it was before the removal. */
  function RemoveTeamAsWritten(st: TeamState, teamId: string): (r: TeamState)
    ensures r.teams == WithoutTeam(st.teams, teamId) && r.members == st.members && r.isLoading == st.isLoading
    ensures st.current.Some? && st.current.value.id == teamId ==>
      r.current == (if |st.teams| > 0 then Some(st.teams[0]) else None)
    ensures st.current.None? || st.current.value.id != teamId ==> r.current == st.current
  {
    var current :=
      if st.current.Some? && st.current.value.id == teamId then
        (if |st.teams| > 0 then Some(st.teams[0]) else None)
      else st.current;
    st.(teams := WithoutTeam(st.teams, teamId), current := current)
  }

  /** Removing the current team when it heads the list leaves the removed team
      current: it is no longer among the teams. */
  lemma RemoveFirstCurrentIsStale(t: Team, rest: seq<Team>, members: seq<TeamMember>)
    ensures var st := TeamState([t] + rest, Some(t), members, false);
      CurrentInTeams(st) && RemoveTeamAsWritten(st, t.id).current == Some(t)
      && !CurrentInTeams(RemoveTeamAsWritten(st, t.id))
  {
  }

  /** The evidently intended removal: the new current team is the first team that
      remains, or none. */
  function RemoveTeam(st: TeamState, teamId: string): (r: TeamState)
    ensures r.teams == WithoutTeam(st.teams, teamId) && r.members == st.members && r.isLoading == st.isLoading
    ensures st.current.Some? && st.current.value.id == teamId ==>
      r.current == (if |r.teams| > 0 then Some(r.teams[0]) else None)
    ensures st.current.None? || st.current.value.id != teamId ==> r.current == st.current
  {
    var teams := WithoutTeam(st.teams, teamId);
    var current :=
      if st.current.Some? && st.current.value.id == teamId then
        (if |teams| > 0 then Some(teams[0]) else None)
      else st.current;
    st.(teams := teams, current := current)
  }

  /** The corrected removal keeps the current team among the teams, and the
      removed team is never current afterwards. */
  lemma RemoveKeepsCurrent(st: TeamState, teamId: string)
    ensures CurrentInTeams(st) ==> CurrentInTeams(RemoveTeam(st, teamId))
    ensures RemoveTeam(st, teamId).current.None? || RemoveTeam(st, teamId).current.value.id != teamId
  {
    var r := RemoveTeam(st, teamId);
    if r.current.Some? && r.current != st.current {
      assert r.teams[0] in r.teams;
    }
  }

  /** The two removals differ only in the choice of the new current team. */
  lemma RemoveDiffersOnlyInCurrent(st: TeamState, teamId: string)
    ensures RemoveTeam(st, teamId).(current := None) == RemoveTeamAsWritten(st, teamId).(current := None)
    ensures st.current.None? || st.current.value.id != teamId ==> RemoveTeam(st, teamId) == RemoveTeamAsWritten(st, teamId)
  {
  }

  /** `deleteTeam` as written: the delete request, then the local removal. */
  function DeleteTeamAsWritten(st: TeamState, teamId: string, ack: Ack): (r: TeamState)
    ensures ack == Rejected ==> r == st
    ensures ack == Acked ==> r == RemoveTeamAsWritten(st, teamId)
  {
    if ack == Acked then RemoveTeamAsWritten(st, teamId) else st
  }

  /** `deleteTeam` with the corrected choice of the new current team. */
  function DeleteTeam(st: TeamState, teamId: string, ack: Ack): (r: TeamState)
    ensures ack == Rejected ==> r == st
    ensures ack == Acked ==> r.teams == WithoutTeam(st.teams, teamId)
    ensures ack == Acked ==> r == RemoveTeam(st, teamId)
    ensures r.members == st.members && r.isLoading == st.isLoading
    ensures CurrentInTeams(st) ==> CurrentInTeams(r)
  {
    if ack == Acked then
      RemoveKeepsCurrent(st, teamId);
      RemoveTeam(st, teamId)
    else st
  }

  /** The first team with that id. */
  function FindTeam(teams: seq<Team>, teamId: string): (r: Option<Team>)
    ensures r.None? <==> forall t :: t in teams ==> t.id != teamId
    ensures r.Some? ==> r.value in teams && r.value.id == teamId
    ensures r.Some? ==> exists i :: 0 <= i < |teams| && teams[i] == r.value
                                   && forall j :: 0 <= j < i ==> teams[j].id != teamId
  {
    var i := Seqs.FirstIndex(teams, IdIs(teamId));
    if i < |teams| then Some(teams[i]) else None
  }

  function IdIs(teamId: string): Team -> bool
  {
    (t: Team) => t.id == teamId
  }

  datatype LeaveResult = LeaveResult(state: TeamState, deleteSent: bool)

  /** The refusal of `leaveTeam`: the user created the first team with that id. */
  predicate IsCreator(teams: seq<Team>, teamId: string, u: User)
  {
    var t := FindTeam(teams, teamId);
    t.Some? && t.value.createdBy == u.id
  }

  /** `leaveTeam` as written. No user, or the team's creator, sends nothing and
      changes nothing; otherwise the membership delete is sent and on success the
      team is removed as `deleteTeam` removes it. */
  function LeaveTeamAsWritten(st: TeamState, user: Option<User>, teamId: string, ack: Ack): (r: LeaveResult)
    ensures !r.deleteSent ==> r.state == st
    ensures r.deleteSent <==> user.Some? && !IsCreator(st.teams, teamId, user.value)
    ensures r.deleteSent && ack == Acked ==> r.state == RemoveTeamAsWritten(st, teamId)
    ensures ack == Rejected ==> r.state == st
  {
    match user
    case None => LeaveResult(st, false)
    case Some(u) =>
      if IsCreator(st.teams, teamId, u) then LeaveResult(st, false)
      else LeaveResult(if ack == Acked then RemoveTeamAsWritten(st, teamId) else st, true)
  }

  /** `leaveTeam` with the corrected choice of the new current team. */
  function LeaveTeam(st: TeamState, user: Option<User>, teamId: string, ack: Ack): (r: LeaveResult)
    ensures !r.deleteSent ==> r.state == st
    ensures r.deleteSent <==> user.Some? && !IsCreator(st.teams, teamId, user.value)
    ensures r.deleteSent && ack == Acked ==> r.state == RemoveTeam(st, teamId)
    ensures ack == Rejected ==> r.state == st
    ensures CurrentInTeams(st) ==> CurrentInTeams(r.state)
  {
    match user
    case None => LeaveResult(st, false)
    case Some(u) =>
      if IsCreator(st.teams, teamId, u) then LeaveResult(st, false)
      else
        RemoveKeepsCurrent(st, teamId);
        LeaveResult(if ack == Acked then RemoveTeam(st, teamId) else st, true)
  }

  /** The creator of a listed team cannot leave it: nothing is sent, nothing changes. */
  lemma CreatorCannotLeave(st: TeamState, u: User, t: Team, ack: Ack)
    requires t in st.teams && t.createdBy == u.id
    requires forall s :: s in st.teams && s.id == t.id ==> s == t
    ensures LeaveTeam(st, Some(u), t.id, ack) == LeaveResult(st, false)
  {
  }

  datatype JoinResult = JoinResult(state: TeamState, ok: bool, memberInsert: Option<MemberInsert>)

  /** `joinTeamByCode`. Already a member: success with no change. Otherwise a member
      insert with role 'member'; on success the team is appended and made current.
      No user, an unknown code, or a failed insert: failure with no change. */
  function JoinTeamByCode(st: TeamState, user: Option<User>, lookup: Response<TeamRow>,
                          alreadyMember: bool, ack: Ack): (r: JoinResult)
    ensures !r.ok ==> r.state == st
    ensures user.None? || lookup.Err? ==> !r.ok && r.memberInsert.None?
    ensures user.Some? && lookup.Ok? && alreadyMember ==> r.ok && r.state == st && r.memberInsert.None?
    ensures user.Some? && lookup.Ok? && !alreadyMember ==>
      r.memberInsert == Some(MemberInsert(lookup.value.id, user.value.id, Member))
      && (r.ok <==> ack == Acked)
      && (r.ok ==> r.state == st.(teams := st.teams + [FromRow(lookup.value)], current := Some(FromRow(lookup.value))))
  {
    match user
    case None => JoinResult(st, false, None)
    case Some(u) =>
      match lookup
      case Err => JoinResult(st, false, None)
      case Ok(row) =>
        if alreadyMember then JoinResult(st, true, None)
        else
          var insert := MemberInsert(row.id, u.id, Member);
          match ack
          case Rejected => JoinResult(st, false, Some(insert))
          case Acked =>
            var team := FromRow(row);
            JoinResult(st.(teams := st.teams + [team], current := Some(team)), true, Some(insert))
  }

  /** Joining keeps the current team among the teams. */
  lemma JoinKeepsCurrent(st: TeamState, user: Option<User>, lookup: Response<TeamRow>, alreadyMember: bool, ack: Ack)
    requires CurrentInTeams(st)
    ensures CurrentInTeams(JoinTeamByCode(st, user, lookup, alreadyMember, ack).state)
  {
    var r := JoinTeamByCode(st, user, lookup, alreadyMember, ack);
    if r.state != st {
      assert r.state.teams[|st.teams|] == r.state.current.value;
    }
  }

  /** `changeTeamMemberRole`: on success the role of the members with that id is set. */
  function ChangeTeamMemberRole(st: TeamState, memberId: string, role: TeamRole, ack: Ack): (r: TeamState)
    ensures ack == Rejected ==> r == st
    ensures r.teams == st.teams && r.current == st.current && |r.members| == |st.members|
    ensures r.isLoading == st.isLoading
    ensures ack == Acked ==> forall i :: 0 <= i < |st.members| ==>
      r.members[i] == if st.members[i].id == memberId then st.members[i].(role := role) else st.members[i]
  {
    if ack == Rejected then st
    else
      st.(members := seq(|st.members|, i requires 0 <= i < |st.members| =>
            if st.members[i].id == memberId then st.members[i].(role := role) else st.members[i]))
  }

  function MemberIdIsNot(memberId: string): TeamMember -> bool
  {
    (m: TeamMember) => m.id != memberId
  }

  /** A role change keeps every member's id in its place, and repeating it
      changes nothing more. */
  lemma RoleChangeIdempotent(st: TeamState, memberId: string, role: TeamRole)
    ensures var r := ChangeTeamMemberRole(st, memberId, role, Acked);
      (forall i :: 0 <= i < |st.members| ==> r.members[i].id == st.members[i].id)
      && ChangeTeamMemberRole(r, memberId, role, Acked) == r
  {
  }

  /** Removing a member after changing their role is removing them alone. */
  lemma RemoveAfterRoleChange(st: TeamState, memberId: string, role: TeamRole, ack: Ack)
    ensures RemoveTeamMember(ChangeTeamMemberRole(st, memberId, role, ack), memberId, Acked)
         == RemoveTeamMember(st, memberId, Acked)
  {
    var changed := ChangeTeamMemberRole(st, memberId, role, ack);
    Seqs.FilterAgree(changed.members, st.members, MemberIdIsNot(memberId));
  }

  /** `removeTeamMember`: on success the members with that id are dropped, the rest
      kept in order. */
  function RemoveTeamMember(st: TeamState, memberId: string, ack: Ack): (r: TeamState)
    ensures ack == Rejected ==> r == st
    ensures r.teams == st.teams && r.current == st.current && r.isLoading == st.isLoading
    ensures ack == Acked ==> forall m :: m in r.members <==> m in st.members && m.id != memberId
    ensures ack == Acked ==> Seqs.IsSubseq(r.members, st.members)
    ensures ack == Acked ==> forall m :: multiset(r.members)[m] == if m.id != memberId then multiset(st.members)[m] else 0
  {
    if ack == Rejected then st
    else st.(members := Seqs.Filter(st.members, MemberIdIsNot(memberId)))
  }

  /** `setCurrentTeam`, exposed to the application as is. */
  function SetCurrentTeam(st: TeamState, team: Option<Team>): (r: TeamState)
    ensures r.current == team && r.teams == st.teams && r.members == st.members
    ensures r.isLoading == st.isLoading
  {
    st.(current := team)
  }

  /** Selecting one of the teams, or none, keeps the current team among the teams;
      nothing else guards the setter. */
  lemma SelectListedKeepsCurrent(st: TeamState, team: Option<Team>)
    requires team.None? || team.value in st.teams
    ensures CurrentInTeams(SetCurrentTeam(st, team))
  {
  }
}
