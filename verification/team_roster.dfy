/** The team roster hook (src/hooks/use-team.ts): every profile with its first team
    membership, flattened into one member record, plus local removal, team-role
    changes and a placeholder invitation. The remote outcomes and the fetch time
    (`new Date()`) are inputs. */
module TeamRoster {
  import opened Wrappers
  import Seqs

  /** One `team_members` entry nested under a profile. */
  datatype Membership = Membership(joinedAt: int, role: string)

  /** A row of `profiles` with its nested memberships; `memberships` is None when
      the nested value is missing or not an array. */
  datatype ProfileRow = ProfileRow(
    id: string,
    name: Option<string>,
    email: Option<string>,
    role: Option<string>,
    avatar: Option<string>,
    lastActive: Option<int>,
    memberships: Option<seq<Membership>>)

  /** The hook's `TeamMember`: the user's global `role` and the `teamRole` of the
      first membership. */
  datatype RosterMember = RosterMember(
    id: string,
    name: string,
    email: string,
    role: string,
    avatar: Option<string>,
    lastActive: Option<int>,
    joinedAt: int,
    teamRole: string)

  /** The membership a profile is shown with: the first one, if there is one. */
  function FirstMembership(p: ProfileRow): (m: Option<Membership>)
    ensures m.Some? <==> p.memberships.Some? && |p.memberships.value| > 0
    ensures m.Some? ==> m.value == p.memberships.value[0]
  {
    if p.memberships.Some? && |p.memberships.value| > 0 then Some(p.memberships.value[0]) else None
  }

  /** The transform of one profile: a falsy name is 'Unknown', a falsy email "",
      a falsy role 'user'; without a membership the team role is 'member' and the
      join time is the fetch time. */
  function Transform(p: ProfileRow, now: int): (m: RosterMember)
    ensures m.id == p.id && m.avatar == p.avatar && m.lastActive == p.lastActive
    ensures m.name == OrElse(p.name, "Unknown")
    ensures m.email == OrElse(p.email, "")
    ensures m.role == OrElse(p.role, "user")
    ensures FirstMembership(p).Some? ==>
      m.teamRole == FirstMembership(p).value.role && m.joinedAt == FirstMembership(p).value.joinedAt
    ensures FirstMembership(p).None? ==> m.teamRole == "member" && m.joinedAt == now
  {
    var first := FirstMembership(p);
    RosterMember(p.id, OrElse(p.name, "Unknown"), OrElse(p.email, ""), OrElse(p.role, "user"),
                 p.avatar, p.lastActive,
                 if first.Some? then first.value.joinedAt else now,
                 if first.Some? then first.value.role else "member")
  }

  /** A profile whose every optional column is missing gets every default. */
  lemma BareProfileDefaults(id: string, now: int)
    ensures Transform(ProfileRow(id, None, None, None, None, None, None), now)
         == RosterMember(id, "Unknown", "", "user", None, None, now, "member")
  {
  }

  /** Later memberships play no part. */
  lemma OnlyFirstMembershipCounts(p: ProfileRow, more: seq<Membership>, now: int)
    requires p.memberships.Some? && |p.memberships.value| > 0
    ensures Transform(p.(memberships := Some([p.memberships.value[0]] + more)), now) == Transform(p, now)
  {
  }

  /** One member per profile row, in the fetched order. */
  function TransformAll(rows: seq<ProfileRow>, now: int): (ms: seq<RosterMember>)
    ensures |ms| == |rows|
    ensures forall i :: 0 <= i < |rows| ==> ms[i] == Transform(rows[i], now)
  {
    seq(|rows|, i requires 0 <= i < |rows| => Transform(rows[i], now))
  }

  datatype RosterState = RosterState(team: seq<RosterMember>, isLoading: bool, error: Option<string>)

  const Initial := RosterState([], true, None)

  const LoadError := "Failed to load team members"

  /** `fetchTeamMembers`: on success the roster is replaced and the error cleared;
      on failure the roster is kept and the error is set. Loading ends either way. */
  function FetchTeamMembers(st: RosterState, rows: Response<seq<ProfileRow>>, now: int): (r: RosterState)
    ensures !r.isLoading
    ensures rows.Ok? ==> r.team == TransformAll(rows.value, now) && r.error.None?
    ensures rows.Err? ==> r.team == st.team && r.error == Some(LoadError)
  {
    match rows
    case Ok(ps) => RosterState(TransformAll(ps, now), false, None)
    case Err => RosterState(st.team, false, Some(LoadError))
  }

  function IdIsNot(memberId: string): RosterMember -> bool
  {
    (m: RosterMember) => m.id != memberId
  }

  /** `removeTeamMember`: on success the members with that id are dropped, the others
      kept in order, and the answer is true; on failure false and no change. */
  function RemoveTeamMember(st: RosterState, memberId: string, ack: Ack): (r: (RosterState, bool))
    ensures r.1 <==> ack == Acked
    ensures !r.1 ==> r.0 == st
    ensures r.1 ==> forall m :: m in r.0.team <==> m in st.team && m.id != memberId
    ensures r.1 ==> Seqs.IsSubseq(r.0.team, st.team)
    ensures r.1 ==> forall m :: multiset(r.0.team)[m] == if m.id != memberId then multiset(st.team)[m] else 0
    ensures r.0.isLoading == st.isLoading && r.0.error == st.error
  {
    match ack
    case Rejected => (st, false)
    case Acked => (st.(team := Seqs.Filter(st.team, IdIsNot(memberId))), true)
  }

  /** Removing the same member twice is removing it once. */
  lemma RemoveTwice(st: RosterState, memberId: string)
    ensures RemoveTeamMember(RemoveTeamMember(st, memberId, Acked).0, memberId, Acked)
         == RemoveTeamMember(st, memberId, Acked)
  {
    Seqs.FilterIdempotent(st.team, IdIsNot(memberId));
  }

  /** `updateMemberRole`: on success only the team role of the members with that id
      changes; the global role and every other field stay. */
  function UpdateMemberRole(st: RosterState, memberId: string, newRole: string, ack: Ack): (r: (RosterState, bool))
    ensures r.1 <==> ack == Acked
    ensures !r.1 ==> r.0 == st
    ensures |r.0.team| == |st.team|
    ensures forall i :: 0 <= i < |st.team| ==> r.0.team[i].role == st.team[i].role
    ensures r.0.isLoading == st.isLoading && r.0.error == st.error
    ensures r.1 ==> forall i :: 0 <= i < |st.team| ==>
      r.0.team[i] == if st.team[i].id == memberId then st.team[i].(teamRole := newRole) else st.team[i]
  {
    match ack
    case Rejected => (st, false)
    case Acked =>
      (st.(team := seq(|st.team|, i requires 0 <= i < |st.team| =>
         if st.team[i].id == memberId then st.team[i].(teamRole := newRole) else st.team[i])), true)
  }

  /** A role update keeps every member's id in its place, and repeating it changes
      nothing more. */
  lemma RoleUpdateIdempotent(st: RosterState, memberId: string, newRole: string)
    ensures var r := UpdateMemberRole(st, memberId, newRole, Acked).0;
      (forall i :: 0 <= i < |st.team| ==> r.team[i].id == st.team[i].id)
      && UpdateMemberRole(r, memberId, newRole, Acked).0 == r
  {
  }

  /** Removing a member after updating their role is removing them alone. */
  lemma RemoveAfterRoleUpdate(st: RosterState, memberId: string, newRole: string, ack: Ack)
    ensures RemoveTeamMember(UpdateMemberRole(st, memberId, newRole, ack).0, memberId, Acked)
         == RemoveTeamMember(st, memberId, Acked)
  {
    var updated := UpdateMemberRole(st, memberId, newRole, ack).0;
    Seqs.FilterAgree(updated.team, st.team, IdIsNot(memberId));
  }

  /** A successful fetch gives the same roster whatever came before, a failure
      after it keeps that roster and reports the error, and the fetched members
      are the fetched profiles, in order. */
  lemma FetchRecovers(st: RosterState, rows: seq<ProfileRow>, now: int, later: int)
    ensures FetchTeamMembers(FetchTeamMembers(st, Err, now), Ok(rows), later) == FetchTeamMembers(st, Ok(rows), later)
    ensures var ok := FetchTeamMembers(st, Ok(rows), now);
      FetchTeamMembers(ok, Err, later) == ok.(error := Some(LoadError))
    ensures var ok := FetchTeamMembers(st, Ok(rows), now);
      |ok.team| == |rows| && forall i :: 0 <= i < |rows| ==> ok.team[i].id == rows[i].id
  {
  }

  /** `inviteMember`: only a notification; it always answers true and changes nothing. */
  function InviteMember(st: RosterState, email: string, role: string): (r: (RosterState, bool))
    ensures r.0 == st && r.1
  {
    (st, true)
  }
}
