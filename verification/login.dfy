/** The login form of src/App.js: the `handleChange` field update and the
    effect of `handleSubmit` on client storage and on the dialog shown. The
    POST is outside the model; its reply is a parameter. Storage is an
    abstract key -> string map. */
module Login {
  import opened Wrappers
  import opened Text
  import opened Roles
  import opened Profiles

  /** A form value: an input's text, or a checkbox's checked flag. */
  datatype FormValue = TextValue(s: string) | FlagValue(b: bool)

  /** The form state; `extra` holds any other key an event adds. */
  datatype LoginForm = LoginForm(
    uname: FormValue,
    password: FormValue,
    rememberMe: FormValue,
    extra: map<string, FormValue>)

  const UnameKey := "user_uname"
  const PasswordKey := "user_password"
  const RememberMeKey := "rememberMe"

  const InitialLoginForm := LoginForm(TextValue(""), TextValue(""), FlagValue(false), map[])

  /** The target of a change event. */
  datatype ChangeEvent = ChangeEvent(id: string, value: string, isCheckbox: bool, checked: bool)

  function GetField(f: LoginForm, key: string): Option<FormValue>
  {
    if key == UnameKey then Some(f.uname)
    else if key == PasswordKey then Some(f.password)
    else if key == RememberMeKey then Some(f.rememberMe)
    else if key in f.extra then Some(f.extra[key])
    else None
  }

  function SetField(f: LoginForm, key: string, v: FormValue): LoginForm
  {
    if key == UnameKey then f.(uname := v)
    else if key == PasswordKey then f.(password := v)
    else if key == RememberMeKey then f.(rememberMe := v)
    else f.(extra := f.extra[key := v])
  }

  /** `handleChange`: a checkbox stores its checked flag, any other input its
      text, under the key named by the target's id. */
  function HandleChange(f: LoginForm, e: ChangeEvent): (r: LoginForm)
    ensures e.isCheckbox ==> GetField(r, e.id) == Some(FlagValue(e.checked))
    ensures !e.isCheckbox ==> GetField(r, e.id) == Some(TextValue(e.value))
    ensures forall key :: key != e.id ==> GetField(r, key) == GetField(f, key)
  {
    SetField(f, e.id, if e.isCheckbox then FlagValue(e.checked) else TextValue(e.value))
  }

  /** JavaScript truthiness of a form value. */
  predicate IsTruthy(v: FormValue)
  {
    match v
    case TextValue(s) => s != ""
    case FlagValue(b) => b
  }

  /** The string `localStorage.setItem` stores for a form value. */
  function StoredText(v: FormValue): string
  {
    match v
    case TextValue(s) => s
    case FlagValue(b) => if b then "true" else "false"
  }

  const TokenKey := "token"
  const RememberedKey := "rememberedUsername"
  const LoginFallbackMessage := "ไม่สามารถเข้าสู่ระบบได้"

  /** The body posted to the login endpoint. */
  datatype LoginRequest = LoginRequest(username: FormValue, password: FormValue)

  /** How the POST ended: a reply (status, message, token and user), or a
      thrown error with the server's `message` if a response came back. */
  datatype LoginReply =
    | Responded(status: string, message: Option<string>, token: string, user: User)
    | LoginThrown(serverMessage: Option<string>)

  /** The dialogs shown: nothing; the welcome followed by the user summary
      (its roles list and profile text); or the error. */
  datatype LoginNotice =
    | Quiet
    | Welcome(message: Option<string>, rolesList: string, details: string)
    | LoginFailed(text: string)

  datatype LoginOutcome = LoginOutcome(request: LoginRequest, storage: map<string, string>, notice: LoginNotice)

  /** `localStorage.setItem`. */
  function SetItem(storage: map<string, string>, key: string, value: string): map<string, string>
  {
    storage[key := value]
  }

  /** `localStorage.removeItem`. */
  function RemoveItem(storage: map<string, string>, key: string): map<string, string>
  {
    storage - {key}
  }

  /** The storage writes of a successful login. */
  function StoreSession(storage: map<string, string>, f: LoginForm, token: string): (s: map<string, string>)
    ensures TokenKey in s && s[TokenKey] == token
    ensures RememberedKey in s <==> IsTruthy(f.rememberMe)
    ensures IsTruthy(f.rememberMe) ==> s[RememberedKey] == StoredText(f.uname)
    ensures forall key :: key != TokenKey && key != RememberedKey ==>
      (key in s <==> key in storage) && (key in s ==> s[key] == storage[key])
  {
    var withToken := SetItem(storage, TokenKey, token);
    if IsTruthy(f.rememberMe) then SetItem(withToken, RememberedKey, StoredText(f.uname))
    else RemoveItem(withToken, RememberedKey)
  }

  /** `handleSubmit` of the login form. */
  function SubmitLogin(f: LoginForm, storage: map<string, string>, reply: LoginReply): (r: LoginOutcome)
    ensures r.request == LoginRequest(f.uname, f.password)
    ensures reply.Responded? && reply.status == "success" ==>
      && TokenKey in r.storage && r.storage[TokenKey] == reply.token
      && (RememberedKey in r.storage <==> IsTruthy(f.rememberMe))
      && (IsTruthy(f.rememberMe) ==> r.storage[RememberedKey] == StoredText(f.uname))
      && r.storage == StoreSession(storage, f, reply.token)
      && r.notice == Welcome(reply.message, RolesList(reply.user.roles), ProfileDetails(reply.user))
    ensures reply.Responded? && reply.status != "success" ==> r.storage == storage && r.notice == Quiet
    ensures reply.LoginThrown? ==> r.storage == storage
    ensures reply.LoginThrown? && OrEmpty(reply.serverMessage) != "" ==>
      r.notice == LoginFailed(reply.serverMessage.value)
    ensures reply.LoginThrown? && OrEmpty(reply.serverMessage) == "" ==>
      r.notice == LoginFailed(LoginFallbackMessage)
  {
    var request := LoginRequest(f.uname, f.password);
    match reply
    case Responded(status, message, token, user) =>
      if status == "success" then
        LoginOutcome(request, StoreSession(storage, f, token),
                     Welcome(message, RolesList(user.roles), ProfileDetails(user)))
      else
        LoginOutcome(request, storage, Quiet)
    case LoginThrown(serverMessage) =>
      LoginOutcome(request, storage, LoginFailed(OrElse(OrEmpty(serverMessage), LoginFallbackMessage)))
  }

  /** Logging in twice with the same form and reply leaves storage as one
      login does. */
  lemma StoreSessionIdempotent(storage: map<string, string>, f: LoginForm, token: string)
    ensures StoreSession(StoreSession(storage, f, token), f, token) == StoreSession(storage, f, token)
  {
  }

  /** Through the form's own events, the remember-me checkbox decides the
      stored username: checked, the typed username is stored as typed;
      unchecked, any username remembered earlier is removed. */
  lemma RememberMeFromCheckbox(f: LoginForm, uname: string, checked: bool, storage: map<string, string>, token: string)
    ensures
      var f' := HandleChange(HandleChange(f, ChangeEvent(UnameKey, uname, false, false)),
                             ChangeEvent(RememberMeKey, "on", true, checked));
      var s := StoreSession(storage, f', token);
      && (RememberedKey in s <==> checked)
      && (checked ==> s[RememberedKey] == uname)
  {
  }

  /** A sample login: user "teacher01" with remember-me checked, reply
      token "abc" for a teacher in class M1 room 1. */
  lemma SampleLogin(storage: map<string, string>)
    ensures
      var f := HandleChange(HandleChange(InitialLoginForm, ChangeEvent(UnameKey, "teacher01", false, false)),
                            ChangeEvent(RememberMeKey, "on", true, true));
      var teacher := TeacherProfile("T1", [ClassRef(Some("M1"), Some("1"))]);
      var user := User("teacher01", PersonName(None, None), None, None, None, ["teacher"],
                       ProfileMap(None, Some(teacher), None, None, None, None));
      var r := SubmitLogin(f, storage, Responded("success", None, "abc", user));
      && r.storage[TokenKey] == "abc"
      && r.storage[RememberedKey] == "teacher01"
      && r.notice.Welcome?
      && r.notice.details == Block(user, TeacherKey).value
      && TeacherBody(teacher) == "รหัสครู: T1<br>ประจำชั้น: M1 /1"
  {
    var teacher := TeacherProfile("T1", [ClassRef(Some("M1"), Some("1"))]);
    var user := User("teacher01", PersonName(None, None), None, None, None, ["teacher"],
                     ProfileMap(None, Some(teacher), None, None, None, None));
    SampleTeacherClasses();
    SingleProfileDetails(user, TeacherKey);
  }
}
