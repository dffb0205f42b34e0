/** The team member card (src/components/team/TeamMemberCard.tsx): the role badge,
    the colour of the completion bar, the team-role badge, the avatar fallback, the
    role label and the "last active" line. */
module TeamMemberCard {
  import opened Wrappers
  import opened Text
  import TeamRoster

  datatype BadgeVariant = Default | Outline | Secondary

  /** `getRoleBadgeVariant`. */
  function RoleBadgeVariant(role: string): (v: BadgeVariant)
    ensures v == Default <==> role == "admin"
    ensures v == Outline <==> role == "manager"
    ensures v == Secondary <==> role != "admin" && role != "manager"
  {
    if role == "admin" then Default
    else if role == "manager" then Outline
    else Secondary
  }

  /** The three declared roles get three different badges. */
  lemma RoleBadgesDistinguish()
    ensures RoleBadgeVariant("admin") != RoleBadgeVariant("manager")
    ensures RoleBadgeVariant("admin") != RoleBadgeVariant("user")
    ensures RoleBadgeVariant("manager") != RoleBadgeVariant("user")
  {
  }

  datatype BarColor = Red | Yellow | Green

  /** The progress bar's colour for a completion rate. */
  function CompletionColor(rate: int): (c: BarColor)
    ensures c == Red <==> rate < 30
    ensures c == Yellow <==> 30 <= rate < 70
    ensures c == Green <==> 70 <= rate
  {
    if rate < 30 then Red else if rate < 70 then Yellow else Green
  }

  function Rank(c: BarColor): nat
  {
    match c
    case Red => 0
    case Yellow => 1
    case Green => 2
  }

  /** A higher rate never gets a worse colour. */
  lemma ColorMonotone(a: int, b: int)
    requires a <= b
    ensures Rank(CompletionColor(a)) <= Rank(CompletionColor(b))
  {
  }

  /** The "Team: …" badge appears when the member has a team role that differs from
      the global role. */
  predicate ShowsTeamRole(m: TeamRoster.RosterMember)
  {
    m.teamRole != "" && m.teamRole != m.role
  }

  /** A member who joined no team is shown with team role 'member', so the badge
      appears unless the global role is also 'member'. */
  lemma UnjoinedShowsMemberBadge(p: TeamRoster.ProfileRow, now: int)
    requires TeamRoster.FirstMembership(p).None?
    ensures ShowsTeamRole(TeamRoster.Transform(p, now)) <==> TeamRoster.Transform(p, now).role != "member"
  {
  }

  /** The avatar fallback: the name's first two characters (fewer for a shorter
      name), upper-cased. */
  function AvatarFallback(name: string): (r: string)
    ensures |r| == if |name| < 2 then |name| else 2
    ensures forall i :: 0 <= i < |r| ==> r[i] == UpperChar(name[i])
  {
    ToUpper(if |name| < 2 then name else name[..2])
  }

  lemma UpperCharIdempotent(c: char)
    ensures UpperChar(UpperChar(c)) == UpperChar(c)
  {
  }

  /** The fallback ignores the case of the name's letters. */
  lemma FallbackIgnoresCase(name: string)
    ensures AvatarFallback(ToUpper(name)) == AvatarFallback(name)
  {
    var a, b := AvatarFallback(ToUpper(name)), AvatarFallback(name);
    forall i | 0 <= i < |a|
      ensures a[i] == b[i]
    {
      UpperCharIdempotent(name[i]);
    }
  }

  /** The role badge text: the first character upper-cased, the rest unchanged. */
  function RoleLabel(role: string): (r: string)
    ensures |r| == |role|
    ensures |role| > 0 ==> r[0] == UpperChar(role[0]) && r[1..] == role[1..]
  {
    CapitalizeFirst(role)
  }

  /** The three declared roles read 'Admin', 'Manager' and 'User'. */
  lemma RoleLabels()
    ensures RoleLabel("admin") == "Admin"
    ensures RoleLabel("manager") == "Manager"
    ensures RoleLabel("user") == "User"
  {
    assert "admin"[1..] == "dmin";
    assert "manager"[1..] == "anager";
    assert "user"[1..] == "ser";
  }

  /** `getTimeStatus`: nothing without a last-active time; otherwise the time since
      then, which the card words as "Active … ago". */
  function TimeStatus(lastActive: Option<int>, now: int): (r: Option<int>)
    ensures r.None? <==> lastActive.None?
    ensures r.Some? ==> lastActive.value + r.value == now
  {
    match lastActive
    case None => None
    case Some(t) => Some(now - t)
  }
}
