/** The input schemas of the sign-in, registration and settings forms
    (src/components/auth/LoginForm.tsx, src/components/auth/RegisterForm.tsx,
    src/components/settings/ProfileForm.tsx, src/pages/Settings.tsx) and what their
    submit handlers do with the loading and success flags. A schema's result is
    the set of issues it reports, each on a field with its message; the form is
    submitted exactly when that set is empty. The e-mail check of the schema
    library is a parameter `isEmail`. A whole-form refinement (the password
    confirmation) is checked together with the field checks, since every field is
    a string. */
module Forms {
  import opened Wrappers
  import opened Domain
  import Auth

  datatype FieldName = NameField | EmailField | PasswordField | ConfirmPasswordField
                     | CurrentPasswordField | NewPasswordField | BioField

  datatype Issue = Issue(field: FieldName, message: string)

  /** `z.string().min(n)` on `field`. */
  function MinLength(s: string, n: nat, field: FieldName, message: string): (r: set<Issue>)
    ensures r == {} <==> |s| >= n
    ensures r != {} ==> r == {Issue(field, message)}
  {
    if |s| < n then {Issue(field, message)} else {}
  }

  /** The profile schema, the same in the settings form and the settings page. */
  datatype ProfileValues = ProfileValues(name: string, email: string, bio: Option<string>)

  function ProfileIssues(v: ProfileValues, isEmail: string -> bool): (r: set<Issue>)
    ensures r == {} <==> |v.name| >= 2 && isEmail(v.email) && (v.bio.None? || |v.bio.value| <= 500)
    ensures forall i :: i in r ==> i.field in {NameField, EmailField, BioField}
  {
    MinLength(v.name, 2, NameField, "Name must be at least 2 characters.")
    + (if isEmail(v.email) then {} else {Issue(EmailField, "Please enter a valid email address.")})
    + (if v.bio.Some? && |v.bio.value| > 500 then {Issue(BioField, "Bio must not exceed 500 characters.")} else {})
  }

  /** A missing bio is accepted; a bio of 501 characters is not. */
  lemma BioBoundary(name: string, email: string, bio: string, isEmail: string -> bool)
    requires |name| >= 2 && isEmail(email)
    ensures ProfileIssues(ProfileValues(name, email, None), isEmail) == {}
    ensures ProfileIssues(ProfileValues(name, email, Some(bio)), isEmail) == {} <==> |bio| <= 500
  {
  }

  /** The profile form starts from the user's name and email (or "") and an empty bio. */
  function ProfileDefaults(user: Option<User>): (v: ProfileValues)
    ensures user.None? ==> v == ProfileValues("", "", Some(""))
    ensures user.Some? ==> v == ProfileValues(user.value.name, user.value.email, Some(""))
  {
    match user
    case None => ProfileValues("", "", Some(""))
    case Some(u) => ProfileValues(OrElse(Some(u.name), ""), OrElse(Some(u.email), ""), Some(""))
  }

  /** When a user is present the name and email are reset from it; the bio, and
      everything when nobody is signed in, stay as typed. */
  function ResetFromUser(v: ProfileValues, user: Option<User>): (r: ProfileValues)
    ensures user.None? ==> r == v
    ensures user.Some? ==> r.name == user.value.name && r.email == user.value.email
    ensures r.bio == v.bio
  {
    match user
    case None => v
    case Some(u) => v.(name := OrElse(Some(u.name), ""), email := OrElse(Some(u.email), ""))
  }

  /** The reset forgets whatever name and email had been typed: it gives the
      defaults' name and email. */
  lemma ResetMatchesDefaults(v: ProfileValues, user: Option<User>)
    requires user.Some?
    ensures ResetFromUser(v, user).name == ProfileDefaults(user).name
    ensures ResetFromUser(v, user).email == ProfileDefaults(user).email
  {
  }

  /** The registration schema. */
  datatype RegisterValues = RegisterValues(name: string, email: string, password: string, confirmPassword: string)

  const PasswordsDontMatch := "Passwords don't match"

  function RegisterIssues(v: RegisterValues, isEmail: string -> bool): (r: set<Issue>)
    ensures r == {} <==> |v.name| >= 2 && isEmail(v.email) && |v.password| >= 6 && v.password == v.confirmPassword
    ensures Issue(ConfirmPasswordField, PasswordsDontMatch) in r <==> v.password != v.confirmPassword
    ensures Issue(PasswordField, "Password must be at least 6 characters") in r <==> |v.password| < 6
  {
    MinLength(v.name, 2, NameField, "Name must be at least 2 characters")
    + (if isEmail(v.email) then {} else {Issue(EmailField, "Invalid email address")})
    + MinLength(v.password, 6, PasswordField, "Password must be at least 6 characters")
    + (if v.password == v.confirmPassword then {} else {Issue(ConfirmPasswordField, PasswordsDontMatch)})
  }

  /** When every other field passes, a mismatch is reported on the confirmation only. */
  lemma MismatchOnConfirmOnly(v: RegisterValues, isEmail: string -> bool)
    requires |v.name| >= 2 && isEmail(v.email) && |v.password| >= 6 && v.password != v.confirmPassword
    ensures RegisterIssues(v, isEmail) == {Issue(ConfirmPasswordField, PasswordsDontMatch)}
  {
  }

  /** The registration form's flags. */
  datatype RegisterState = RegisterState(isLoading: bool, registrationSuccess: bool)

  /** `onSubmit` after a passing schema: success shows the confirmation (the form
      stays disabled until the switch to sign-in); failure re-enables the form. */
  function SubmitRegister(st: RegisterState, ack: Ack): (r: RegisterState)
    ensures r.registrationSuccess <==> ack == Acked || st.registrationSuccess
    ensures r.isLoading <==> ack == Acked
  {
    match ack
    case Acked => RegisterState(true, true)
    case Rejected => st.(isLoading := false)
  }

  /** The form's flags follow the context's `register`, which settles like sign-in:
      the form stays loading exactly when the context does, and the confirmation
      shows once the request has resolved. */
  lemma RegisterFollowsSignIn(st: RegisterState, auth: Auth.AuthState, ack: Ack)
    ensures SubmitRegister(st, ack).isLoading == Auth.SignIn(auth, ack).0.isLoading
    ensures SubmitRegister(st, ack).registrationSuccess == (Auth.SignIn(auth, ack).1 || st.registrationSuccess)
  {
  }

  /** The sign-in schema. */
  datatype LoginValues = LoginValues(email: string, password: string)

  function LoginIssues(v: LoginValues, isEmail: string -> bool): (r: set<Issue>)
    ensures r == {} <==> isEmail(v.email) && |v.password| >= 6
  {
    (if isEmail(v.email) then {} else {Issue(EmailField, "Invalid email address")})
    + MinLength(v.password, 6, PasswordField, "Password must be at least 6 characters")
  }

  /** The empty form the page starts with cannot be submitted, whatever counts as
      an e-mail address. */
  lemma DefaultLoginInvalid(isEmail: string -> bool)
    ensures LoginIssues(LoginValues("", ""), isEmail) != {}
  {
    assert Issue(PasswordField, "Password must be at least 6 characters") in LoginIssues(LoginValues("", ""), isEmail);
  }

  /** `onSubmit` of the sign-in form: loading starts; a failure ends it, a success
      leaves it on while the session takes over. */
  function SubmitLogin(ack: Ack): (isLoading: bool)
    ensures isLoading <==> ack == Acked
  {
    match ack
    case Acked => true
    case Rejected => false
  }

  /** The form's flag follows the context's sign-in: it stays on exactly when the
      sign-in resolves, and then agrees with the context's own loading flag. */
  lemma LoginFollowsSignIn(st: Auth.AuthState, ack: Ack)
    ensures SubmitLogin(ack) == Auth.SignIn(st, ack).1
    ensures SubmitLogin(ack) == Auth.SignIn(st, ack).0.isLoading
  {
  }

  /** The settings page's password schema. */
  datatype PasswordValues = PasswordValues(currentPassword: string, newPassword: string, confirmPassword: string)

  const PasswordsDoNotMatch := "Passwords do not match"

  function PasswordIssues(v: PasswordValues): (r: set<Issue>)
    ensures r == {} <==> |v.currentPassword| >= 1 && |v.newPassword| >= 8 && |v.confirmPassword| >= 1 && v.newPassword == v.confirmPassword
    ensures Issue(ConfirmPasswordField, PasswordsDoNotMatch) in r <==> v.newPassword != v.confirmPassword
  {
    MinLength(v.currentPassword, 1, CurrentPasswordField, "Current password is required")
    + MinLength(v.newPassword, 8, NewPasswordField, "Password must be at least 8 characters")
    + MinLength(v.confirmPassword, 1, ConfirmPasswordField, "Please confirm your password")
    + (if v.newPassword == v.confirmPassword then {} else {Issue(ConfirmPasswordField, PasswordsDoNotMatch)})
  }

  /** A matching pair of seven characters is refused for its length alone. */
  lemma SevenCharactersRefused(current: string, p: string)
    requires |current| >= 1 && |p| == 7
    ensures PasswordIssues(PasswordValues(current, p, p)) == {Issue(NewPasswordField, "Password must be at least 8 characters")}
  {
  }

  /** The page allows eight characters where registration asked for six. */
  lemma SettingsStricterThanRegistration(v: PasswordValues, name: string, email: string, isEmail: string -> bool)
    requires PasswordIssues(v) == {} && |name| >= 2 && isEmail(email)
    ensures RegisterIssues(RegisterValues(name, email, v.newPassword, v.confirmPassword), isEmail) == {}
  {
  }
}
