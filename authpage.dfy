/**
 * The client's authentication page: the zod validators of the login and
 * registration forms, the payload the registration form submits, and the
 * redirect of a user who is already logged in.
 */
module AuthPage {
  import opened Wrappers
  import opened Schema
  import opened Storage

  /** The form field a validation issue is reported on. */
  datatype Field = Username | Password | ConfirmPassword

  datatype Issue = Issue(path: Field, message: string)

  const UsernameTooShort := "اسم المستخدم يجب أن يكون 3 أحرف على الأقل"
  const PasswordTooShort := "كلمة المرور يجب أن تكون 6 أحرف على الأقل"
  const PasswordsDiffer := "كلمتا المرور غير متطابقتين"

  /** `loginSchema`: at least 3 characters of username and 6 of password; zod reports every failing field. */
  function LoginIssues(d: LoginData): (r: seq<Issue>)
    ensures r == [] <==> |d.username| >= 3 && |d.password| >= 6
    ensures Issue(Username, UsernameTooShort) in r <==> |d.username| < 3
    ensures Issue(Password, PasswordTooShort) in r <==> |d.password| < 6
    ensures forall i | 0 <= i < |r| :: r[i] == Issue(Username, UsernameTooShort) || r[i] == Issue(Password, PasswordTooShort)
  {
    (if |d.username| < 3 then [Issue(Username, UsernameTooShort)] else [])
    + (if |d.password| < 6 then [Issue(Password, PasswordTooShort)] else [])
  }

  /** The values of the registration form. */
  datatype RegisterForm = RegisterForm(username: string, password: string, confirmPassword: string, isAdmin: bool)

  /** `registerForm`'s default values. */
  const DefaultRegisterForm := RegisterForm("", "", "", false)

  /**
   * `registerSchema`: `insertUserSchema` with `password` overridden by a
   * 6-character minimum, then a refinement that the two passwords match,
   * reported on `confirmPassword`. A too-short password does not abort the
   * parse, so the refinement still runs and both issues can appear.
   */
  function RegisterIssues(f: RegisterForm): (r: seq<Issue>)
    ensures r == [] <==> |f.password| >= 6 && f.password == f.confirmPassword
    ensures Issue(Password, PasswordTooShort) in r <==> |f.password| < 6
    ensures Issue(ConfirmPassword, PasswordsDiffer) in r <==> f.password != f.confirmPassword
    ensures forall i | 0 <= i < |r| :: r[i].path != Username
  {
    (if |f.password| < 6 then [Issue(Password, PasswordTooShort)] else [])
    + (if f.password != f.confirmPassword then [Issue(ConfirmPassword, PasswordsDiffer)] else [])
  }

  /** Any username, even an empty one, passes registration when the passwords are fine. */
  lemma NoUsernameMinimum(f: RegisterForm)
    requires |f.password| >= 6 && f.password == f.confirmPassword
    ensures RegisterIssues(f) == []
    ensures RegisterIssues(f.(username := "")) == []
    ensures LoginIssues(LoginData(f.username, f.password)) == [] <==> |f.username| >= 3
  {
  }

  /** The untouched registration form is refused for its empty password only. */
  lemma DefaultFormRefused()
    ensures RegisterIssues(DefaultRegisterForm) == [Issue(Password, PasswordTooShort)]
    ensures !DefaultRegisterForm.isAdmin
  {
  }

  /** `onRegisterSubmit`: `confirmPassword` is dropped, the other three fields are sent. */
  function RegisterPayload(f: RegisterForm): (p: InsertUser)
    ensures p.username == f.username && p.password == f.password
    ensures p.isAdmin == Given(f.isAdmin)
  {
    InsertUser(f.username, f.password, Given(f.isAdmin))
  }

  /**
   * The server stores the flag the form sends, so a registration form with
   * `isAdmin` set creates an administrator.
   */
  lemma RegisterPayloadKeepsAdminFlag(id: int, f: RegisterForm)
    ensures NewUser(id, RegisterPayload(f)).isAdmin == f.isAdmin
    ensures NewUser(id, RegisterPayload(f)).username == f.username
  {
  }

  /** The effect that redirects a logged-in user: administrators to "/admin", others to "/". */
  function Redirect(user: Option<User>): (r: Option<string>)
    ensures r.None? <==> user.None?
    ensures r == Some("/admin") <==> user.Some? && user.value.isAdmin
    ensures r == Some("/") <==> user.Some? && !user.value.isAdmin
  {
    match user
    case None => None
    case Some(u) => if u.isAdmin then Some("/admin") else Some("/")
  }
}
