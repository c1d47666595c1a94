/**
 The sign-in and sign-up dialogs of the page header (public/js/header-auth.js):
 what the form handlers check before sending anything, which body they send,
 where the page goes after a successful reply, and when a dialog opens by
 itself from the address's query parameters.
 */
module HeaderAuth {
  import opened Wrappers
  import opened Text
  import opened Crypto
  import opened Auth

  /** `(fd.get(name) || '').toString()`: a missing form field reads as the empty string. */
  function FormValue(field: Option<string>): string {
    field.GetOr("")
  }

  // ---------------------------------------------------------------------
  // Login
  // ---------------------------------------------------------------------

  /** The login body: the identifier goes out as `email` or as `username`. */
  datatype LoginBody = EmailLogin(email: string, password: string) | UsernameLogin(username: string, password: string)

  datatype LoginAttempt = LoginError(message: string) | SendLogin(body: LoginBody)

  const EnterIdentifier := "Enter email or username"
  const EnterPassword := "Enter password"

  /**
   The login submit handler: the identifier is trimmed and checked first,
   then the (untrimmed) password; an identifier containing `@` is sent as an
   email, any other as a username.
   */
  function SubmitLogin(identifierField: Option<string>, passwordField: Option<string>): (a: LoginAttempt)
    ensures Trim(FormValue(identifierField)) == "" ==> a == LoginError(EnterIdentifier)
    ensures Trim(FormValue(identifierField)) != "" && FormValue(passwordField) == "" ==> a == LoginError(EnterPassword)
    ensures a.SendLogin? <==> Trim(FormValue(identifierField)) != "" && FormValue(passwordField) != ""
    ensures a.SendLogin? ==>
      && (a.body.EmailLogin? <==> OccursIn("@", Trim(FormValue(identifierField))))
      && (a.body.EmailLogin? ==> a.body.email == Trim(FormValue(identifierField)))
      && (a.body.UsernameLogin? ==> a.body.username == Trim(FormValue(identifierField)))
      && a.body.password == FormValue(passwordField)
  {
    var identifier := Trim(FormValue(identifierField));
    var password := FormValue(passwordField);
    IncludesIsOccurrence(identifier, "@");
    if identifier == "" then LoginError(EnterIdentifier)
    else if password == "" then LoginError(EnterPassword)
    else if Includes(identifier, "@") then SendLogin(EmailLogin(identifier, password))
    else SendLogin(UsernameLogin(identifier, password))
  }

  /** The JSON body the login request carries, as the server reads it. */
  function LoginJson(b: LoginBody): map<string, string> {
    match b
    case EmailLogin(e, p) => map["email" := e, "password" := p]
    case UsernameLogin(u, p) => map["username" := u, "password" := p]
  }

  /** Where the page goes after a successful request. */
  datatype Navigation = Reload | NavigateTo(location: string) | PromptLogin

  predicate ProtectedPage(path: string) {
    path == "/pose" || path == "/index"
  }

  /** After a successful login: reload on a protected page, else follow `next` when given, else reload. */
  function AfterLogin(path: string, next: Option<string>): (n: Navigation)
    ensures n.NavigateTo? <==> !ProtectedPage(path) && Truthy(next)
    ensures n.NavigateTo? ==> n.location == next.value
    ensures !n.PromptLogin?
  {
    if ProtectedPage(path) then Reload
    else if Truthy(next) then NavigateTo(next.value)
    else Reload
  }

  // ---------------------------------------------------------------------
  // Register
  // ---------------------------------------------------------------------

  datatype RegisterPayload = RegisterPayload(fullName: string, username: string, email: string, password: string)

  datatype RegisterAttempt = RegisterError(message: string) | SendRegister(payload: RegisterPayload)

  const AllFieldsRequired := "All fields are required"

  /** The register submit handler: three fields trimmed, the password as typed; any empty field stops it. */
  function SubmitRegister(fullName: Option<string>, username: Option<string>, email: Option<string>, password: Option<string>)
    : (a: RegisterAttempt)
    ensures a.SendRegister? <==>
      && Trim(FormValue(fullName)) != "" && Trim(FormValue(username)) != ""
      && Trim(FormValue(email)) != "" && FormValue(password) != ""
    ensures a.RegisterError? ==> a.message == AllFieldsRequired
    ensures a.SendRegister? ==>
      a.payload == RegisterPayload(Trim(FormValue(fullName)), Trim(FormValue(username)), Trim(FormValue(email)), FormValue(password))
  {
    var p := RegisterPayload(Trim(FormValue(fullName)), Trim(FormValue(username)), Trim(FormValue(email)), FormValue(password));
    if p.fullName == "" || p.username == "" || p.email == "" || p.password == "" then RegisterError(AllFieldsRequired)
    else SendRegister(p)
  }

  function RegisterJson(p: RegisterPayload): map<string, string> {
    map["fullName" := p.fullName, "username" := p.username, "email" := p.email, "password" := p.password]
  }

  /**
   After a successful register: with a token in the reply, reload on a
   protected page and go home otherwise; without one, ask the user to log in.
   */
  function AfterRegister(tokenInReply: bool, path: string): (n: Navigation)
    ensures n.PromptLogin? <==> !tokenInReply
    ensures tokenInReply && !ProtectedPage(path) ==> n == NavigateTo("/")
    ensures tokenInReply && ProtectedPage(path) ==> n == Reload
  {
    if tokenInReply then (if ProtectedPage(path) then Reload else NavigateTo("/"))
    else PromptLogin
  }

  /** `data.accessToken || data.refreshToken` on the register reply. */
  predicate TokenInReply(o: Outcome) {
    o.issued.Some? && (o.issued.value.access != "" || o.issued.value.refresh != "")
  }

  // ---------------------------------------------------------------------
  // Auto-open
  // ---------------------------------------------------------------------

  predicate ParamIs(params: map<string, string>, key: string, value: string) {
    key in params && params[key] == value
  }

  /**
   Which dialogs open by themselves: sign-in with `login=1` and `auto=1`,
   sign-up with `register=1` and `auto=1`, each only when its dialog is on
   the page.
   */
  function AutoOpen(params: map<string, string>, loginDialog: bool, registerDialog: bool): (r: (bool, bool))
    ensures r.0 <==> ParamIs(params, "login", "1") && ParamIs(params, "auto", "1") && loginDialog
    ensures r.1 <==> ParamIs(params, "register", "1") && ParamIs(params, "auto", "1") && registerDialog
    ensures !ParamIs(params, "auto", "1") ==> !r.0 && !r.1
  {
    (ParamIs(params, "login", "1") && ParamIs(params, "auto", "1") && loginDialog,
     ParamIs(params, "register", "1") && ParamIs(params, "auto", "1") && registerDialog)
  }

  // ---------------------------------------------------------------------
  // Against the server
  // ---------------------------------------------------------------------

  /** A JSON request from the page: no `Accept: text/html`, no query, no cookies. */
  function PageRequest(body: map<string, string>): Request {
    Request(None, JsonBody, map[], map[], None, body)
  }

  /** Whatever the login form sends passes the server's required-field check, so it never gets the 400. */
  lemma LoginFormSatisfiesServer(identifierField: Option<string>, passwordField: Option<string>)
    requires SubmitLogin(identifierField, passwordField).SendLogin?
    ensures LoginFieldsPresent(PageRequest(LoginJson(SubmitLogin(identifierField, passwordField).body)))
  {
    LoginJsonFields(SubmitLogin(identifierField, passwordField).body);
  }

  lemma LoginJsonFields(b: LoginBody)
    ensures var m := LoginJson(b);
      && Field(m, "password") == Some(b.password)
      && (b.EmailLogin? ==> Field(m, "email") == Some(b.email))
      && (b.UsernameLogin? ==> Field(m, "username") == Some(b.username))
  {
  }

  /** Whatever the sign-up form sends passes the server's required-field check. */
  lemma RegisterFormSatisfiesServer(fullName: Option<string>, username: Option<string>, email: Option<string>, password: Option<string>)
    requires SubmitRegister(fullName, username, email, password).SendRegister?
    ensures RegisterFieldsPresent(PageRequest(RegisterJson(SubmitRegister(fullName, username, email, password).payload)))
  {
    var p := SubmitRegister(fullName, username, email, password).payload;
    RegisterJsonFields(p);
  }

  lemma RegisterJsonFields(p: RegisterPayload)
    ensures var m := RegisterJson(p);
      && Field(m, "username") == Some(p.username) && Field(m, "email") == Some(p.email)
      && Field(m, "fullName") == Some(p.fullName) && Field(m, "password") == Some(p.password)
  {
    var m := RegisterJson(p);
    assert "fullName" != "username" && "fullName" != "email" && "fullName" != "password";
    assert "username" != "email" && "username" != "password" && "email" != "password";
    assert m["username"] == p.username && m["email"] == p.email;
  }

  /**
   A sign-up from the page while a token secret is unset is stored, but its
   JSON reply carries no token, so the page asks the user to log in; with
   both secrets set and non-empty tokens the page moves on instead.
   */
  lemma {:induction false} PageSignUpNavigation(env: Env, st: State, body: map<string, string>, now: Time, path: string)
    requires RegisterFieldsPresent(PageRequest(body)) && !Taken(st, PageRequest(body))
    ensures var s := Register(env, st, PageRequest(body), now);
      && s.outcome.reply == Json(Created)
      && (AfterRegister(TokenInReply(s.outcome), path) == PromptLogin <==> !TokenInReply(s.outcome))
      && (!SecretsSet(env) ==> AfterRegister(TokenInReply(s.outcome), path) == PromptLogin)
  {
    var req := PageRequest(body);
    assert Negotiate(req) == JsonFormat by {
      assert req.accept.None? && req.bodyKind == JsonBody;
      assert !QueryFlag(req.query, "redirect") && !QueryFlag(req.query, "html");
    }
  }

  /** The query parameters of `RegisteredAddress`, as the page's `URLSearchParams` reads them. */
  const RegisteredParams := map["login" := "1", "auto" := "1", "registered" := "1"]

  /**
   A form sign-up that succeeds while a token secret is unset is redirected
   to `RegisteredAddress`, and that address opens the sign-in dialog and not
   the sign-up one.
   */
  lemma RegisteredRedirectOpensLogin(env: Env, st: State, req: Request, now: Time, loginDialog: bool, registerDialog: bool)
    requires RegisterFieldsPresent(req) && !Taken(st, req)
    requires Negotiate(req) == Html && !SecretsSet(env)
    ensures Register(env, st, req, now).outcome.reply == Redirect(RegisteredAddress)
    ensures AutoOpen(RegisteredParams, loginDialog, registerDialog) == (loginDialog, false)
  {
    assert Register(env, st, req, now) == Admit(env, st, NewAccount(st, req, now), true, now);
    assert "register" !in RegisteredParams;
  }
}
