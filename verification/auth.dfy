/**
 The account and refresh-token lifecycle of `routes/auth.js`: every POST
 handler is a pure transition from a state and a request to a new state and
 an outcome. The state is the account registry plus the freshness counter
 that distinguishes minted tokens.
 */
module Auth {
  import opened Wrappers
  import opened Text
  import opened Crypto

  // ------------------------------------------------------------ data model

  /** The single refresh-token slot of an account. */
  datatype Slot = Empty | Active(token: string)

  /** A stored user document. `password` is the stored credential, opaque to the model. */
  datatype Account = Account(
    id: UserId, username: string, email: string, fullName: string, password: string,
    avatar: string, coverImage: string, createdAt: Time, updatedAt: Time, refresh: Slot)

  /** The projection of an account that may leave the server. */
  datatype SafeUser = SafeUser(
    id: UserId, username: string, email: string, fullName: string,
    avatar: string, coverImage: string, createdAt: Time, updatedAt: Time)

  /** All accounts, in insertion order, and the next value of the freshness counter. */
  datatype State = State(accounts: seq<Account>, serial: nat)

  /** The body encoding `req.is(...)` recognises (`NoBody`: the request has none). */
  datatype BodyKind = UrlEncodedBody | MultipartBody | JsonBody | OtherBody | NoBody

  /** The parts of an HTTP request the handlers read; every string-valued bag is a map. */
  datatype Request = Request(
    accept: Option<string>, bodyKind: BodyKind, query: map<string, string>,
    cookies: map<string, string>, authorization: Option<string>, body: map<string, string>)

  datatype Status = Ok | Created | BadRequest | Unauthorized | NotFound | Conflict | ServerError

  function Code(s: Status): int {
    match s
    case Ok => 200
    case Created => 201
    case BadRequest => 400
    case Unauthorized => 401
    case NotFound => 404
    case Conflict => 409
    case ServerError => 500
  }

  /** A JSON reply with a status, or a redirect (which always answers 302). */
  datatype Reply = Json(status: Status) | Redirect(location: string)

  datatype TokenPair = TokenPair(access: string, refresh: string)

  /**
   What a handler answers: the reply, the tokens it sets as cookies (and, for
   JSON, returns in the body), the user it returns, and whether it clears
   both auth cookies.
   */
  datatype Outcome = Outcome(reply: Reply, issued: Option<TokenPair>, user: Option<SafeUser>,
                             cookiesCleared: bool)

  datatype Step = Step(state: State, outcome: Outcome)

  // ------------------------------------------------------------ invariants

  /** Every account sits at the position of its id; usernames and emails are each unique. */
  ghost predicate Valid(st: State) {
    && (forall i :: 0 <= i < |st.accounts| ==> st.accounts[i].id == i)
    && (forall i, j :: 0 <= i < j < |st.accounts| ==>
          st.accounts[i].username != st.accounts[j].username
          && st.accounts[i].email != st.accounts[j].email)
  }

  /** A slot holds no token that will be minted at a counter value from `serial` on. */
  ghost predicate SlotPredates(env: Env, slot: Slot, serial: nat) {
    slot.Active? ==> forall p, t, k :: k >= serial ==> slot.token != env.sign(RefreshDomain, p, t, k)
  }

  /** No stored refresh token equals one that will be minted at a counter value not yet used. */
  ghost predicate SlotsPredate(env: Env, st: State) {
    forall i :: 0 <= i < |st.accounts| ==> SlotPredates(env, st.accounts[i].refresh, st.serial)
  }

  // ---------------------------------------------------- request plumbing

  function Field(m: map<string, string>, key: string): (r: Option<string>)
    ensures r.Some? <==> key in m
    ensures r.Some? ==> r.value == m[key]
  {
    if key in m then Some(m[key]) else None
  }

  /** JavaScript truthiness of a string-valued field: present and non-empty. */
  predicate Truthy(v: Option<string>) {
    v.Some? && v.value != ""
  }

  predicate QueryFlag(q: map<string, string>, key: string) {
    key in q && q[key] == "1"
  }

  /** `value.toLowerCase().trim()`, the key under which usernames and emails are stored. */
  function Normalize(s: string): string {
    Trim(Lower(s))
  }

  datatype Format = Html | JsonFormat

  /**
   `wantsHTML`: an HTML caller is one that accepts `text/html`, posts a form,
   or asks for it with `redirect=1` or `html=1`.
   */
  function Negotiate(req: Request): (f: Format)
    ensures f == Html <==>
      || (req.accept.Some? && OccursIn("text/html", req.accept.value))
      || req.bodyKind == UrlEncodedBody || req.bodyKind == MultipartBody
      || QueryFlag(req.query, "redirect") || QueryFlag(req.query, "html")
  {
    var acceptsHtml := req.accept.Some? && Includes(req.accept.value, "text/html");
    var isForm := req.bodyKind == UrlEncodedBody || req.bodyKind == MultipartBody;
    var flag := QueryFlag(req.query, "redirect") || QueryFlag(req.query, "html");
    IncludesIsOccurrence(req.accept.GetOr(""), "text/html");
    if acceptsHtml || isForm || flag then Html else JsonFormat
  }

  function ToSafeUser(a: Account): (u: SafeUser)
    ensures u.id == a.id && u.username == a.username && u.email == a.email
    ensures u.fullName == a.fullName && u.avatar == a.avatar && u.coverImage == a.coverImage
    ensures u.createdAt == a.createdAt && u.updatedAt == a.updatedAt
  {
    SafeUser(a.id, a.username, a.email, a.fullName, a.avatar, a.coverImage, a.createdAt, a.updatedAt)
  }

  /** The projection forgets exactly the password and the refresh slot. */
  lemma SafeUserForgetsSecrets(a: Account, b: Account)
    ensures ToSafeUser(a) == ToSafeUser(b) <==>
      a.(password := b.password, refresh := b.refresh) == b
  {
  }

  /** The access credential: the cookie when truthy, else the value after `"Bearer "`. */
  function PresentedAccessToken(req: Request): (r: Option<string>)
    ensures Truthy(Field(req.cookies, "accessToken")) ==> r == Field(req.cookies, "accessToken")
    ensures !Truthy(Field(req.cookies, "accessToken")) ==>
      (r.Some? <==> req.authorization.Some? && StartsWith(req.authorization.value, "Bearer "))
    ensures !Truthy(Field(req.cookies, "accessToken")) && r.Some? ==>
      req.authorization.value == "Bearer " + r.value
  {
    var cookie := Field(req.cookies, "accessToken");
    if Truthy(cookie) then cookie
    else
      var bearer := req.authorization.GetOr("");
      if StartsWith(bearer, "Bearer ") then
        assert bearer == bearer[..7] + bearer[7..];
        Some(bearer[7..])
      else None
  }

  /** The refresh credential: the cookie when truthy, else the body's `refreshToken`. */
  function PresentedRefreshToken(req: Request): Option<string> {
    var cookie := Field(req.cookies, "refreshToken");
    if Truthy(cookie) then cookie else Field(req.body, "refreshToken")
  }

  // --------------------------------------------------------------- lookup

  predicate Matches(a: Account, username: Option<string>, email: Option<string>) {
    (username.Some? && a.username == username.value) || (email.Some? && a.email == email.value)
  }

  /** `User.findOne({$or: [...]})`: the first account, in insertion order, matching either key. */
  function FindAccount(accounts: seq<Account>, username: Option<string>, email: Option<string>): (r: Option<nat>)
    ensures r.Some? ==> r.value < |accounts| && Matches(accounts[r.value], username, email)
    ensures r.Some? ==> forall j :: 0 <= j < r.value ==> !Matches(accounts[j], username, email)
    ensures r.None? <==> forall j :: 0 <= j < |accounts| ==> !Matches(accounts[j], username, email)
  {
    if |accounts| == 0 then None
    else if Matches(accounts[0], username, email) then Some(0)
    else
      match FindAccount(accounts[1..], username, email)
      case None => None
      case Some(k) => Some(k + 1)
  }

  function SetSlot(st: State, i: nat, slot: Slot): (st': State)
    requires i < |st.accounts|
    ensures |st'.accounts| == |st.accounts| && st'.serial == st.serial
    ensures st'.accounts[i].refresh == slot
    ensures forall j :: 0 <= j < |st.accounts| && j != i ==> st'.accounts[j] == st.accounts[j]
    ensures st'.accounts[i].(refresh := st.accounts[i].refresh) == st.accounts[i]
  {
    st.(accounts := st.accounts[i := st.accounts[i].(refresh := slot)])
  }

  // ---------------------------------------------------------------- tokens

  function AccessPayload(a: Account): Payload {
    Payload(Some(a.id), a.username, a.email, a.fullName)
  }

  function RefreshPayload(a: Account): Payload {
    Payload(Some(a.id), "", "", "")
  }

  /** `generateAccessToken` / `generateRefreshToken`, at the current counter value. */
  function IssuePair(env: Env, a: Account, now: Time, serial: nat): TokenPair {
    TokenPair(env.sign(AccessDomain, AccessPayload(a), now, serial),
              env.sign(RefreshDomain, RefreshPayload(a), now, serial))
  }

  /** Mint a pair for account `i`, store its refresh half in the slot and advance the counter. */
  function Issue(env: Env, st: State, i: nat, now: Time): (r: (State, TokenPair))
    requires i < |st.accounts|
    ensures r.0 == SetSlot(st, i, Active(r.1.refresh)).(serial := st.serial + 1)
    ensures r.1.refresh == env.sign(RefreshDomain, RefreshPayload(st.accounts[i]), now, st.serial)
  {
    var pair := IssuePair(env, st.accounts[i], now, st.serial);
    (SetSlot(st, i, Active(pair.refresh)).(serial := st.serial + 1), pair)
  }

  predicate SecretsSet(env: Env) {
    env.accessSecretSet && env.refreshSecretSet
  }

  // ----------------------------------------------------------- requireAuth

  datatype AuthFailure = NoCredential | BadToken | UnknownUser

  /** The identity a verified access token names, if any. */
  function AccessIdentity(env: Env, token: string, now: Time): Option<UserId> {
    match Verify(env, AccessDomain, token, now)
    case None => None
    case Some(c) => c.payload.id
  }

  /**
   `requireAuth`: 401 without a credential, with one that does not verify, or
   with one whose account no longer exists; otherwise the account, without
   password and refresh token.
   */
  function RequireAuth(env: Env, st: State, req: Request, now: Time): (r: Result<SafeUser, AuthFailure>)
    requires Valid(st)
    ensures r == Failure(NoCredential) <==> !Truthy(PresentedAccessToken(req))
    ensures r == Failure(BadToken) <==>
      Truthy(PresentedAccessToken(req)) && Verify(env, AccessDomain, PresentedAccessToken(req).value, now).None?
    ensures r.Success? <==>
      Truthy(PresentedAccessToken(req))
      && AccessIdentity(env, PresentedAccessToken(req).value, now).Some?
      && AccessIdentity(env, PresentedAccessToken(req).value, now).value < |st.accounts|
    ensures r.Success? ==>
      r.value == ToSafeUser(st.accounts[AccessIdentity(env, PresentedAccessToken(req).value, now).value])
  {
    var raw := PresentedAccessToken(req);
    if !Truthy(raw) then Failure(NoCredential)
    else
      match Verify(env, AccessDomain, raw.value, now)
      case None => Failure(BadToken)
      case Some(c) =>
        if c.payload.id.Some? && c.payload.id.value < |st.accounts|
        then Success(ToSafeUser(st.accounts[c.payload.id.value]))
        else Failure(UnknownUser)
  }

  /** The access cookie wins over the header: with a truthy cookie the header is never read. */
  lemma CookieBeatsBearer(env: Env, st: State, req: Request, header: Option<string>, now: Time)
    requires Valid(st)
    requires Truthy(Field(req.cookies, "accessToken"))
    ensures RequireAuth(env, st, req, now) == RequireAuth(env, st, req.(authorization := header), now)
  {
  }

  /** `GET /me`: 200 with the user behind a valid access token, 401 otherwise. */
  function Me(env: Env, st: State, req: Request, now: Time): (o: Outcome)
    requires Valid(st)
    ensures o.reply == Json(Ok) <==> RequireAuth(env, st, req, now).Success?
    ensures o.reply != Json(Ok) ==> o.reply == Json(Unauthorized) && o.user.None?
    ensures RequireAuth(env, st, req, now).Success? ==> o.user == Some(RequireAuth(env, st, req, now).value)
  {
    match RequireAuth(env, st, req, now)
    case Success(u) => Outcome(Json(Ok), None, Some(u), false)
    case Failure(_) => Outcome(Json(Unauthorized), None, None, false)
  }

  // -------------------------------------------------------------- register

  predicate RegisterFieldsPresent(req: Request) {
    && Truthy(Field(req.body, "username")) && Truthy(Field(req.body, "email"))
    && Truthy(Field(req.body, "fullName")) && Truthy(Field(req.body, "password"))
  }

  const DefaultAvatar := "/images/logo.svg"

  /** `(avatar && String(avatar).trim()) || '/images/logo.svg'`. */
  function AvatarOf(avatar: Option<string>): (r: string)
    ensures r != ""
    ensures Truthy(avatar) && Trim(avatar.value) != "" ==> r == Trim(avatar.value)
    ensures !(Truthy(avatar) && Trim(avatar.value) != "") ==> r == DefaultAvatar
  {
    if Truthy(avatar) && Trim(avatar.value) != "" then Trim(avatar.value) else DefaultAvatar
  }

  /** The account `POST /register` creates, before any token is stored. */
  function NewAccount(st: State, req: Request, now: Time): Account
    requires RegisterFieldsPresent(req)
  {
    Account(|st.accounts|, Normalize(Field(req.body, "username").value),
            Normalize(Field(req.body, "email").value), Trim(Field(req.body, "fullName").value),
            Field(req.body, "password").value, AvatarOf(Field(req.body, "avatar")), "", now, now, Empty)
  }

  /** The username or email of `req` is already taken (compared after normalisation). */
  predicate Taken(st: State, req: Request)
    requires RegisterFieldsPresent(req)
  {
    FindAccount(st.accounts, Some(Normalize(Field(req.body, "username").value)),
                Some(Normalize(Field(req.body, "email").value))).Some?
  }

  /** Where a page sign-up is sent when a token secret is unset: the home page, asking it to open the sign-in dialog. */
  const RegisteredAddress := "/?login=1&auto=1&registered=1"

  /**
   The tail of a successful registration: append the account; with both
   secrets set also mint a pair and store its refresh half in the new slot.
   */
  function Admit(env: Env, st: State, acct: Account, html: bool, now: Time): (s: Step)
    requires acct.id == |st.accounts| && acct.refresh == Empty
    ensures |s.state.accounts| == |st.accounts| + 1
    ensures s.state.accounts[..|st.accounts|] == st.accounts
    ensures s.state.accounts[|st.accounts|].(refresh := Empty) == acct
    ensures s.outcome.issued.Some? <==> SecretsSet(env)
    ensures SecretsSet(env) ==> (s.state.accounts[|st.accounts|].refresh == Active(s.outcome.issued.value.refresh)
                                 && s.state.serial == st.serial + 1)
    ensures SecretsSet(env) ==>
      s.outcome.issued.value.refresh == env.sign(RefreshDomain, RefreshPayload(acct), now, st.serial)
    ensures !SecretsSet(env) ==> s.state == State(st.accounts + [acct], st.serial)
    ensures !html ==> s.outcome.reply == Json(Created) && s.outcome.user == Some(ToSafeUser(acct))
    ensures html ==> s.outcome.reply == Redirect(if SecretsSet(env) then "/" else RegisteredAddress)
    ensures !s.outcome.cookiesCleared
  {
    var created := State(st.accounts + [acct], st.serial);
    assert created.accounts[..|st.accounts|] == st.accounts;
    var id := |st.accounts|;
    if !SecretsSet(env) then
      Step(created, Outcome(if html then Redirect(RegisteredAddress) else Json(Created),
                            None, if html then None else Some(ToSafeUser(acct)), false))
    else
      var (st', pair) := Issue(env, created, id, now);
      assert st'.accounts[..|st.accounts|] == st.accounts;
      Step(st', Outcome(if html then Redirect("/") else Json(Created), Some(pair),
                        if html then None else Some(ToSafeUser(st'.accounts[id])), false))
  }

  /**
   `POST /register`: 400 with a field missing, 409 when the username or the
   email is taken, else a new account; with both secrets set it is logged in
   (slot filled, tokens issued), otherwise it is created without tokens.
   */
  function Register(env: Env, st: State, req: Request, now: Time): (s: Step)
    ensures !RegisterFieldsPresent(req) ==>
      (s.state == st && s.outcome.reply == (if Negotiate(req) == Html then Redirect("/auth/register?error=missing") else Json(BadRequest)))
    ensures RegisterFieldsPresent(req) && Taken(st, req) ==>
      (s.state == st && s.outcome.reply == (if Negotiate(req) == Html then Redirect("/auth/register?error=exists") else Json(Conflict)))
    ensures RegisterFieldsPresent(req) && !Taken(st, req) ==>
      s == Admit(env, st, NewAccount(st, req, now), Negotiate(req) == Html, now)
    ensures !s.outcome.cookiesCleared
  {
    var html := Negotiate(req) == Html;
    if !RegisterFieldsPresent(req) then
      Step(st, Outcome(if html then Redirect("/auth/register?error=missing") else Json(BadRequest), None, None, false))
    else if Taken(st, req) then
      Step(st, Outcome(if html then Redirect("/auth/register?error=exists") else Json(Conflict), None, None, false))
    else
      Admit(env, st, NewAccount(st, req, now), html, now)
  }

  // ----------------------------------------------------------------- login

  /** Where a failed login sends an HTML caller, and what it tells a JSON one. */
  function LoginFailure(html: bool, status: Status): Outcome {
    Outcome(if html then Redirect("/auth/login") else Json(status), None, None, false)
  }

  /** The reply to a refused login: back to the login page for an HTML caller, the status for a JSON one. */
  function LoginRefusal(req: Request, status: Status): Reply {
    if Negotiate(req) == Html then Redirect("/auth/login") else Json(status)
  }

  predicate LoginFieldsPresent(req: Request) {
    Truthy(Field(req.body, "password"))
    && (Truthy(Field(req.body, "email")) || Truthy(Field(req.body, "username")))
  }

  /** The account a login body names: by normalised email or username, first match wins. */
  function LoginTarget(st: State, req: Request): Option<nat> {
    var email := Field(req.body, "email");
    var username := Field(req.body, "username");
    FindAccount(st.accounts,
                if Truthy(username) then Some(Normalize(username.value)) else None,
                if Truthy(email) then Some(Normalize(email.value)) else None)
  }

  /**
   `POST /login`: 400 without a password or without both identifiers, 404 for
   an unknown account, 401 for a wrong password, 500 when a secret is
   missing; on success the slot is overwritten with a fresh refresh token.
   */
  function Login(env: Env, st: State, req: Request, now: Time): (s: Step)
    ensures !LoginFieldsPresent(req) ==>
      s.state == st && s.outcome.reply == LoginRefusal(req, BadRequest) && s.outcome.issued.None?
    ensures LoginFieldsPresent(req) && LoginTarget(st, req).None? ==>
      s.state == st && s.outcome.reply == LoginRefusal(req, NotFound) && s.outcome.issued.None?
    ensures && LoginFieldsPresent(req) && LoginTarget(st, req).Some?
            && !env.passwordOk(st.accounts[LoginTarget(st, req).value].password, Field(req.body, "password").value)
            ==> s.state == st && s.outcome.reply == LoginRefusal(req, Unauthorized) && s.outcome.issued.None?
    ensures && LoginFieldsPresent(req) && LoginTarget(st, req).Some? && !SecretsSet(env)
            && env.passwordOk(st.accounts[LoginTarget(st, req).value].password, Field(req.body, "password").value)
            ==> s.state == st && s.outcome.reply == LoginRefusal(req, ServerError) && s.outcome.issued.None?
    ensures s.state != st ==>
      && LoginFieldsPresent(req) && LoginTarget(st, req).Some? && SecretsSet(env)
      && env.passwordOk(st.accounts[LoginTarget(st, req).value].password, Field(req.body, "password").value)
    ensures && LoginFieldsPresent(req) && LoginTarget(st, req).Some? && SecretsSet(env)
            && env.passwordOk(st.accounts[LoginTarget(st, req).value].password, Field(req.body, "password").value)
            ==> s.state.serial == st.serial + 1
    ensures s.state == st ==> s.outcome.issued.None?
    ensures s.state != st ==>
      var i := LoginTarget(st, req).value;
      && s.outcome.issued.Some?
      && s.state == SetSlot(st, i, Active(s.outcome.issued.value.refresh)).(serial := st.serial + 1)
      && s.outcome.issued.value.refresh == env.sign(RefreshDomain, RefreshPayload(st.accounts[i]), now, st.serial)
      && (Negotiate(req) == JsonFormat ==>
            s.outcome.reply == Json(Ok) && s.outcome.user == Some(ToSafeUser(s.state.accounts[i])))
      && (Negotiate(req) == Html ==>
            s.outcome.reply == Redirect(if Truthy(Field(req.query, "next")) then Field(req.query, "next").value else "/dashboard"))
    ensures !s.outcome.cookiesCleared
  {
    var html := Negotiate(req) == Html;
    if !LoginFieldsPresent(req) then Step(st, LoginFailure(html, BadRequest))
    else
      match LoginTarget(st, req)
      case None => Step(st, LoginFailure(html, NotFound))
      case Some(i) =>
        if !env.passwordOk(st.accounts[i].password, Field(req.body, "password").value) then
          Step(st, LoginFailure(html, Unauthorized))
        else if !SecretsSet(env) then
          Step(st, LoginFailure(html, ServerError))
        else
          var (st', pair) := Issue(env, st, i, now);
          var next := Field(req.query, "next");
          Step(st', Outcome(if html then Redirect(if Truthy(next) then next.value else "/dashboard") else Json(Ok),
                            Some(pair), if html then None else Some(ToSafeUser(st'.accounts[i])), false))
  }

  // ---------------------------------------------------------------- logout

  /** The identity `POST /logout` recovers from the access credential, if it verifies. */
  function LogoutIdentity(env: Env, req: Request, now: Time): Option<UserId> {
    var raw := PresentedAccessToken(req);
    if Truthy(raw) then AccessIdentity(env, raw.value, now) else None
  }

  /**
   `POST /logout`: always a success that clears both cookies; the refresh
   slot is emptied only for the account a valid access token names.
   */
  function Logout(env: Env, st: State, req: Request, now: Time): (s: Step)
    ensures s.outcome.cookiesCleared && s.outcome.issued.None?
    ensures s.outcome.reply == (if Negotiate(req) == Html then Redirect("/") else Json(Ok))
    ensures |s.state.accounts| == |st.accounts| && s.state.serial == st.serial
    ensures forall j :: 0 <= j < |st.accounts| ==>
      s.state.accounts[j] == st.accounts[j]
      || (LogoutIdentity(env, req, now) == Some(j) && s.state.accounts[j] == st.accounts[j].(refresh := Empty))
    ensures var id := LogoutIdentity(env, req, now);
      id.Some? && id.value < |st.accounts| ==> s.state.accounts[id.value].refresh == Empty
  {
    var id := LogoutIdentity(env, req, now);
    var st' := if id.Some? && id.value < |st.accounts| then SetSlot(st, id.value, Empty) else st;
    Step(st', Outcome(if Negotiate(req) == Html then Redirect("/") else Json(Ok), None, None, true))
  }

  // --------------------------------------------------------------- refresh

  datatype RefreshFailure = NoRefreshToken | InvalidRefresh | NoOwner | Mismatch

  /** `User.findById(decoded._id)` finds an account. */
  predicate RefreshOwnerExists(st: State, p: Payload) {
    p.id.Some? && p.id.value < |st.accounts|
  }

  /** The checks of `POST /refresh` before anything is minted, in the order the handler runs them. */
  function CheckRefresh(env: Env, st: State, req: Request, now: Time): (r: Result<nat, RefreshFailure>)
    ensures r == Failure(NoRefreshToken) <==> !Truthy(PresentedRefreshToken(req))
    ensures r == Failure(InvalidRefresh) <==>
      Truthy(PresentedRefreshToken(req)) && Verify(env, RefreshDomain, PresentedRefreshToken(req).value, now).None?
    ensures r == Failure(NoOwner) <==>
      && Truthy(PresentedRefreshToken(req))
      && Verify(env, RefreshDomain, PresentedRefreshToken(req).value, now).Some?
      && !RefreshOwnerExists(st, Verify(env, RefreshDomain, PresentedRefreshToken(req).value, now).value.payload)
    ensures r.Success? <==>
      && Truthy(PresentedRefreshToken(req))
      && Verify(env, RefreshDomain, PresentedRefreshToken(req).value, now).Some?
      && RefreshOwnerExists(st, Verify(env, RefreshDomain, PresentedRefreshToken(req).value, now).value.payload)
      && st.accounts[Verify(env, RefreshDomain, PresentedRefreshToken(req).value, now).value.payload.id.value].refresh
         == Active(PresentedRefreshToken(req).value)
    ensures r.Success? ==>
      && Truthy(PresentedRefreshToken(req))
      && Verify(env, RefreshDomain, PresentedRefreshToken(req).value, now).Some?
      && r.value < |st.accounts|
      && Verify(env, RefreshDomain, PresentedRefreshToken(req).value, now).value.payload.id == Some(r.value)
      && st.accounts[r.value].refresh == Active(PresentedRefreshToken(req).value)
  {
    var incoming := PresentedRefreshToken(req);
    if !Truthy(incoming) then Failure(NoRefreshToken)
    else
      match Verify(env, RefreshDomain, incoming.value, now)
      case None => Failure(InvalidRefresh)
      case Some(c) =>
        if c.payload.id.None? || c.payload.id.value >= |st.accounts| then Failure(NoOwner)
        else if st.accounts[c.payload.id.value].refresh != Active(incoming.value) then Failure(Mismatch)
        else Success(c.payload.id.value)
  }

  /**
   `POST /refresh`: a presented token that is absent, does not verify, has no
   owner or is not the stored one is refused with 401 and changes nothing.
   The stored one is exchanged for a new pair and replaced in the slot.
   */
  function Refresh(env: Env, st: State, req: Request, now: Time): (s: Step)
    ensures CheckRefresh(env, st, req, now).Failure? ==>
      s.state == st && s.outcome == Outcome(Json(Unauthorized), None, None, false)
    ensures CheckRefresh(env, st, req, now).Success? && !env.accessSecretSet ==>
      s.state == st && s.outcome.issued.None?
    ensures s.state != st ==>
      && CheckRefresh(env, st, req, now).Success? && env.accessSecretSet
      && var i := CheckRefresh(env, st, req, now).value;
      && s.outcome.issued.Some?
      && s.state == SetSlot(st, i, Active(s.outcome.issued.value.refresh)).(serial := st.serial + 1)
      && s.outcome.issued.value.refresh == env.sign(RefreshDomain, RefreshPayload(st.accounts[i]), now, st.serial)
    ensures CheckRefresh(env, st, req, now).Success? && env.accessSecretSet ==> s.state != st
    ensures CheckRefresh(env, st, req, now).Success? && env.accessSecretSet ==>
      s.outcome.reply == (if Negotiate(req) == Html then Redirect("/dashboard") else Json(Ok))
    ensures CheckRefresh(env, st, req, now).Success? && !env.accessSecretSet ==>
      s.outcome.reply == (if Negotiate(req) == Html then Redirect("/auth/login") else Json(Unauthorized))
    ensures !s.outcome.cookiesCleared
  {
    var html := Negotiate(req) == Html;
    match CheckRefresh(env, st, req, now)
    case Failure(_) => Step(st, Outcome(Json(Unauthorized), None, None, false))
    case Success(i) =>
      if !env.accessSecretSet then
        Step(st, Outcome(if html then Redirect("/auth/login") else Json(Unauthorized), None, None, false))
      else
        var (st', pair) := Issue(env, st, i, now);
        Step(st', Outcome(if html then Redirect("/dashboard") else Json(Ok), Some(pair), None, false))
  }

  // ------------------------------------------------------------- dispatch

  datatype Endpoint = RegisterEndpoint | LoginEndpoint | LogoutEndpoint | RefreshEndpoint

  function Handle(env: Env, st: State, ep: Endpoint, req: Request, now: Time): Step {
    match ep
    case RegisterEndpoint => Register(env, st, req, now)
    case LoginEndpoint => Login(env, st, req, now)
    case LogoutEndpoint => Logout(env, st, req, now)
    case RefreshEndpoint => Refresh(env, st, req, now)
  }
}
