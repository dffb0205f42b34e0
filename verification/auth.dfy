/** The authentication context (src/contexts/AuthContext.tsx): the signed-in user
    and the loading flag, the profile-to-user mapping, and the outcomes of logout,
    profile update and password change. Remote calls are input outcomes. */
module Auth {
  import opened Wrappers
  import opened Domain

  /** A row of `profiles`. The role is cast without a check, so it is any string. */
  datatype ProfileRow = ProfileRow(id: string, email: Option<string>, name: Option<string>, role: string, avatar: Option<string>)

  const AvatarService := "https://i.pravatar.cc/150?u="

  /** The generated avatar of a user without one. */
  function DefaultAvatar(id: string): (a: string)
    ensures |a| == |AvatarService| + |id|
    ensures a[..|AvatarService|] == AvatarService && a[|AvatarService|..] == id
  {
    AvatarService + id
  }

  /** The profile-to-`User` mapping: a falsy email becomes "", a falsy name 'User',
      a falsy avatar the generated one, so a mapped user always has an avatar. */
  function ToUser(p: ProfileRow): (u: User)
    ensures u.id == p.id && u.role == p.role
    ensures u.email == OrElse(p.email, "")
    ensures u.name == OrElse(p.name, "User")
    ensures u.avatar == Some(OrElse(p.avatar, DefaultAvatar(p.id)))
  {
    User(p.id, OrElse(p.email, ""), OrElse(p.name, "User"), p.role, Some(OrElse(p.avatar, DefaultAvatar(p.id))))
  }

  /** Reading back the profile of a mapped user gives the same user. */
  lemma ToUserStable(p: ProfileRow)
    ensures var u := ToUser(p); ToUser(ProfileRow(u.id, Some(u.email), Some(u.name), u.role, u.avatar)) == u
  {
  }

  datatype AuthState = AuthState(user: Option<User>, isLoading: bool)

  const Initial := AuthState(None, true)

  /** `isAuthenticated` (`!!user`). */
  predicate IsAuthenticated(st: AuthState)
  {
    st.user.Some?
  }

  /** `fetchUserProfile`: a found profile becomes the user; no row or an error leaves
      the user alone. Loading ends either way. */
  function FetchUserProfile(st: AuthState, found: Response<Option<ProfileRow>>): (r: AuthState)
    ensures !r.isLoading
    ensures found.Ok? && found.value.Some? ==> r.user == Some(ToUser(found.value.value))
    ensures !(found.Ok? && found.value.Some?) ==> r.user == st.user
  {
    match found
    case Ok(Some(p)) => AuthState(Some(ToUser(p)), false)
    case _ => st.(isLoading := false)
  }

  /** An auth state change, with the profile fetch it starts when a session user is
      present; without one the user is signed out and loading ends. */
  function OnAuthStateChange(st: AuthState, sessionUserId: Option<string>, found: Response<Option<ProfileRow>>): (r: AuthState)
    ensures sessionUserId.None? ==> r == AuthState(None, false)
    ensures sessionUserId.Some? ==> r == FetchUserProfile(st, found)
    ensures !r.isLoading
  {
    if sessionUserId.None? then AuthState(None, false) else FetchUserProfile(st, found)
  }

  /** A session event without a user leaves nobody signed in. */
  lemma SignedOutEventUnauthenticates(st: AuthState, found: Response<Option<ProfileRow>>)
    ensures !IsAuthenticated(OnAuthStateChange(st, None, found))
  {
  }

  /** `login` (and `register`, which handles its outcome the same way): loading
      starts; a failure ends it and is reported to the caller; a success leaves it
      on until the auth state change arrives. */
  function SignIn(st: AuthState, ack: Ack): (r: (AuthState, bool))
    ensures r.1 <==> ack == Acked
    ensures r.0.user == st.user
    ensures r.0.isLoading <==> ack == Acked
  {
    match ack
    case Acked => (st.(isLoading := true), true)
    case Rejected => (st.(isLoading := false), false)
  }

  /** `logout`: on success nobody is signed in; loading ends either way. */
  function Logout(st: AuthState, ack: Ack): (r: AuthState)
    ensures !r.isLoading
    ensures ack == Acked ==> r.user.None? && !IsAuthenticated(r)
    ensures ack == Rejected ==> r.user == st.user
  {
    match ack
    case Acked => AuthState(None, false)
    case Rejected => st.(isLoading := false)
  }

  /** `Partial<User>`. */
  datatype UserPatch = UserPatch(
    id: Field<string>,
    email: Field<string>,
    name: Field<string>,
    role: Field<string>,
    avatar: Field<Option<string>>)

  /** `{ ...user, ...data }`. */
  function Overlay(u: User, p: UserPatch): (r: User)
    ensures p.name.Absent? ==> r.name == u.name
    ensures p.name.Present? ==> r.name == p.name.value
    ensures p.email.Absent? ==> r.email == u.email
    ensures p.email.Present? ==> r.email == p.email.value
    ensures p.avatar.Absent? ==> r.avatar == u.avatar
    ensures p.avatar.Present? ==> r.avatar == p.avatar.value
    ensures p.id.Absent? ==> r.id == u.id
    ensures p.id.Present? ==> r.id == p.id.value
    ensures p.role.Absent? ==> r.role == u.role
    ensures p.role.Present? ==> r.role == p.role.value
  {
    User(p.id.Apply(u.id), p.email.Apply(u.email), p.name.Apply(u.name), p.role.Apply(u.role), p.avatar.Apply(u.avatar))
  }

  /** The columns sent to `profiles`: only the name and the avatar, each when
      defined in the patch (an `undefined` column is not sent). */
  datatype ProfileUpdate = ProfileUpdate(name: Option<string>, avatar: Option<string>)

  function ProfileUpdateOf(p: UserPatch): (q: ProfileUpdate)
    ensures q.name.Some? <==> p.name.Present?
    ensures q.name.Some? ==> q.name.value == p.name.value
    ensures q.avatar.Some? <==> p.avatar.Present? && p.avatar.value.Some?
    ensures q.avatar.Some? ==> q.avatar == p.avatar.value
  {
    ProfileUpdate(if p.name.Present? then Some(p.name.value) else None,
                  if p.avatar.Present? then p.avatar.value else None)
  }

  /** `updateUserProfile`: signed out, nothing is sent and nothing changes. Signed
      in, the name and avatar are sent and, on success, every supplied field is
      overlaid on the local user, the email included. */
  function UpdateUserProfile(st: AuthState, p: UserPatch, ack: Ack): (r: (AuthState, Option<ProfileUpdate>))
    ensures st.user.None? ==> r == (st, None)
    ensures st.user.Some? ==> r.1 == Some(ProfileUpdateOf(p))
    ensures st.user.Some? && ack == Acked ==> r.0 == st.(user := Some(Overlay(st.user.value, p)))
    ensures ack == Rejected ==> r.0 == st
  {
    match st.user
    case None => (st, None)
    case Some(u) =>
      match ack
      case Acked => (st.(user := Some(Overlay(u, p))), Some(ProfileUpdateOf(p)))
      case Rejected => (st, Some(ProfileUpdateOf(p)))
  }

  /** An email change reaches the local user but is never sent. */
  lemma EmailChangeStaysLocal(st: AuthState, p: UserPatch)
    requires st.user.Some? && p.email.Present?
    ensures UpdateUserProfile(st, p, Acked).0.user.value.email == p.email.value
    ensures UpdateUserProfile(st, p, Acked).1 == Some(ProfileUpdate(
      if p.name.Present? then Some(p.name.value) else None,
      if p.avatar.Present? then p.avatar.value else None))
  {
  }

  datatype PasswordChange = PasswordChange(ok: bool, verifyEmail: string, updateSent: bool)

  /** `changePassword`: the current password is checked by signing in again with the
      user's email (or "" signed out); only when that succeeds is the update sent,
      and the answer is true only when the update succeeds too. */
  function ChangePassword(user: Option<User>, check: Ack, update: Ack): (r: PasswordChange)
    ensures r.ok <==> check == Acked && update == Acked
    ensures r.updateSent <==> check == Acked
    ensures r.verifyEmail == (if user.Some? then user.value.email else "")
  {
    var email := if user.Some? then user.value.email else "";
    PasswordChange(check == Acked && update == Acked, email, check == Acked)
  }

  /** A wrong current password sends no update and reports failure, whatever the
      update would have answered; a right one reports the update's outcome. */
  lemma FailedCheckSendsNothing(user: Option<User>, update: Ack)
    ensures !ChangePassword(user, Rejected, update).ok && !ChangePassword(user, Rejected, update).updateSent
    ensures ChangePassword(user, Rejected, update) == ChangePassword(user, Rejected, Acked)
    ensures ChangePassword(user, Acked, update).ok <==> update == Acked
  {
  }
}
