/**
 Properties of the account and refresh-token lifecycle that relate several
 handler calls: the registry invariant, the refresh-slot state machine,
 single-use rotation, revocation by logout, and what registration promises
 to a later login or registration.
 */
module AuthProperties {
  import opened Wrappers
  import opened Text
  import opened Crypto
  import opened Auth

  /** The stored key is a fixed point: normalising a normalised username or email changes nothing. */
  lemma NormalizeIdempotent(s: string)
    ensures Normalize(Normalize(s)) == Normalize(s)
  {
    LowerTrimCommute(Lower(s));
    LowerIdempotent(s);
    TrimIdempotent(Lower(s));
  }

  /** Two spellings that differ only in letter case are stored under the same key. */
  lemma CaseVariantsNormalizeAlike(a: string, b: string)
    requires Lower(a) == Lower(b)
    ensures Normalize(a) == Normalize(b)
  {
  }

  // ------------------------------------------------------- the invariant

  lemma SetSlotKeepsValid(st: State, i: nat, slot: Slot)
    requires Valid(st) && i < |st.accounts|
    ensures Valid(SetSlot(st, i, slot))
  {
  }

  lemma AdmitPreservesValid(env: Env, st: State, acct: Account, html: bool, now: Time)
    requires Valid(st) && acct.id == |st.accounts| && acct.refresh == Empty
    requires forall j :: 0 <= j < |st.accounts| ==>
      st.accounts[j].username != acct.username && st.accounts[j].email != acct.email
    ensures Valid(Admit(env, st, acct, html, now).state)
  {
    var s := Admit(env, st, acct, html, now).state;
    var n := |st.accounts|;
    forall j | 0 <= j < n
      ensures s.accounts[j] == st.accounts[j]
    {
      assert s.accounts[j] == s.accounts[..n][j];
    }
  }

  lemma RegisterPreservesValid(env: Env, st: State, req: Request, now: Time)
    requires Valid(st)
    ensures Valid(Register(env, st, req, now).state)
  {
    if RegisterFieldsPresent(req) && !Taken(st, req) {
      var acct := NewAccount(st, req, now);
      forall j | 0 <= j < |st.accounts|
        ensures st.accounts[j].username != acct.username && st.accounts[j].email != acct.email
      {
        assert !Matches(st.accounts[j], Some(acct.username), Some(acct.email));
      }
      AdmitPreservesValid(env, st, acct, Negotiate(req) == Html, now);
    }
  }

  /** Every handler keeps ids at their positions and usernames and emails unique. */
  lemma HandlePreservesValid(env: Env, st: State, ep: Endpoint, req: Request, now: Time)
    requires Valid(st)
    ensures Valid(Handle(env, st, ep, req, now).state)
  {
    match ep
    case RegisterEndpoint =>
      RegisterPreservesValid(env, st, req, now);
    case LoginEndpoint =>
      var s := Login(env, st, req, now);
      if s.state != st {
        SetSlotKeepsValid(st, LoginTarget(st, req).value, Active(s.outcome.issued.value.refresh));
      }
    case LogoutEndpoint =>
      var id := LogoutIdentity(env, req, now);
      if id.Some? && id.value < |st.accounts| {
        SetSlotKeepsValid(st, id.value, Empty);
      }
    case RefreshEndpoint =>
      var s := Refresh(env, st, req, now);
      if s.state != st {
        SetSlotKeepsValid(st, CheckRefresh(env, st, req, now).value, Active(s.outcome.issued.value.refresh));
      }
  }

  // ---------------------------------------------- the refresh slot machine

  /**
   The refresh slot of an existing account moves only along the edges of its
   state machine: it stays, it is emptied (by logout alone), or it receives
   the refresh token minted at the current counter value (register, login,
   refresh), after which the counter advances.
   */
  lemma SlotTransitions(env: Env, st: State, ep: Endpoint, req: Request, now: Time, j: nat)
    requires Valid(st) && j < |st.accounts|
    ensures SlotStep(env, st, Handle(env, st, ep, req, now).state, ep, now, j)
  {
    match ep
    case RegisterEndpoint => RegisterSlotStep(env, st, req, now, j);
    case LoginEndpoint => LoginSlotStep(env, st, req, now, j);
    case LogoutEndpoint => LogoutSlotStep(env, st, req, now, j);
    case RefreshEndpoint => RefreshSlotStep(env, st, req, now, j);
  }

  /**
   One edge of the slot machine for account `j`, from `st` to `st'`: the
   account keeps everything but its slot, and the slot stays, is emptied by
   logout, or receives the token minted at the old counter value while the
   counter advances.
   */
  ghost predicate SlotStep(env: Env, st: State, st': State, ep: Endpoint, now: Time, j: nat)
    requires j < |st.accounts|
  {
    && j < |st'.accounts|
    && (st'.serial == st.serial || st'.serial == st.serial + 1)
    && st'.accounts[j].(refresh := st.accounts[j].refresh) == st.accounts[j]
    && (|| st'.accounts[j].refresh == st.accounts[j].refresh
        || (ep == LogoutEndpoint && st'.accounts[j].refresh == Empty)
        || (&& ep != LogoutEndpoint
            && st'.serial == st.serial + 1
            && st'.accounts[j].refresh
               == Active(env.sign(RefreshDomain, RefreshPayload(st.accounts[j]), now, st.serial))))
  }

  lemma RegisterSlotStep(env: Env, st: State, req: Request, now: Time, j: nat)
    requires j < |st.accounts|
    ensures SlotStep(env, st, Register(env, st, req, now).state, RegisterEndpoint, now, j)
  {
    var s := Register(env, st, req, now).state;
    if RegisterFieldsPresent(req) && !Taken(st, req) {
      RegisterAppends(env, st, req, now);
      RegisteredSlot(env, st, req, now);
      assert s.accounts[j] == s.accounts[..|st.accounts|][j];
    }
  }

  lemma LoginSlotStep(env: Env, st: State, req: Request, now: Time, j: nat)
    requires j < |st.accounts|
    ensures SlotStep(env, st, Login(env, st, req, now).state, LoginEndpoint, now, j)
  {
  }

  lemma LogoutSlotStep(env: Env, st: State, req: Request, now: Time, j: nat)
    requires j < |st.accounts|
    ensures SlotStep(env, st, Logout(env, st, req, now).state, LogoutEndpoint, now, j)
  {
  }

  lemma RefreshSlotStep(env: Env, st: State, req: Request, now: Time, j: nat)
    requires Valid(st) && j < |st.accounts|
    ensures SlotStep(env, st, Refresh(env, st, req, now).state, RefreshEndpoint, now, j)
  {
  }

  /** A slot is emptied only by logout, and only for the account the access token names. */
  lemma OnlyLogoutEmptiesSlots(env: Env, st: State, ep: Endpoint, req: Request, now: Time, j: nat)
    requires Valid(st) && j < |st.accounts|
    requires st.accounts[j].refresh.Active?
    requires Handle(env, st, ep, req, now).state.accounts[j].refresh == Empty
    ensures ep == LogoutEndpoint && LogoutIdentity(env, req, now) == Some(j)
  {
    SlotTransitions(env, st, ep, req, now, j);
  }

  /** The slot of a freshly registered account is empty or holds the token minted at the current counter. */
  lemma RegisteredSlot(env: Env, st: State, req: Request, now: Time)
    requires RegisterFieldsPresent(req) && !Taken(st, req)
    ensures var st' := Register(env, st, req, now).state;
      && |st'.accounts| == |st.accounts| + 1
      && (|| (st'.accounts[|st.accounts|].refresh == Empty && st'.serial == st.serial)
          || (&& st'.serial == st.serial + 1
              && st'.accounts[|st.accounts|].refresh
                 == Active(env.sign(RefreshDomain, RefreshPayload(NewAccount(st, req, now)), now, st.serial))))
  {
  }

  /** Under the freshness assumption every handler keeps stored tokens distinct from future mints. */
  lemma HandlePreservesSlotsPredate(env: Env, st: State, ep: Endpoint, req: Request, now: Time)
    requires Valid(st) && FreshSerials(env) && SlotsPredate(env, st)
    ensures SlotsPredate(env, Handle(env, st, ep, req, now).state)
  {
    match ep
    case RegisterEndpoint => RegisterPreservesSlotsPredate(env, st, req, now);
    case LoginEndpoint => LoginPreservesSlotsPredate(env, st, req, now);
    case LogoutEndpoint => LogoutPreservesSlotsPredate(env, st, req, now);
    case RefreshEndpoint => RefreshPreservesSlotsPredate(env, st, req, now);
  }

  lemma RegisterPreservesSlotsPredate(env: Env, st: State, req: Request, now: Time)
    requires FreshSerials(env) && SlotsPredate(env, st)
    ensures SlotsPredate(env, Register(env, st, req, now).state)
  {
    var st' := Register(env, st, req, now).state;
    if RegisterFieldsPresent(req) && !Taken(st, req) {
      RegisteredSlotPredates(env, st, req, now);
      forall i | 0 <= i < |st.accounts| ensures SlotStep(env, st, st', RegisterEndpoint, now, i) {
        RegisterSlotStep(env, st, req, now, i);
      }
      AppendedKeepsSlotsPredate(env, st, st', now);
    }
  }

  /** Old slots that each take a slot step, plus one new slot that predates the counter, keep every slot predating it. */
  lemma AppendedKeepsSlotsPredate(env: Env, st: State, st': State, now: Time)
    requires FreshSerials(env) && SlotsPredate(env, st)
    requires |st'.accounts| == |st.accounts| + 1
    requires forall i :: 0 <= i < |st.accounts| ==> SlotStep(env, st, st', RegisterEndpoint, now, i)
    requires SlotPredates(env, st'.accounts[|st.accounts|].refresh, st'.serial)
    ensures SlotsPredate(env, st')
  {
    forall i | 0 <= i < |st.accounts| ensures SlotPredates(env, st'.accounts[i].refresh, st'.serial) {
      StepKeepsSlotPredates(env, st, st', RegisterEndpoint, now, i);
    }
  }

  lemma LoginPreservesSlotsPredate(env: Env, st: State, req: Request, now: Time)
    requires FreshSerials(env) && SlotsPredate(env, st)
    ensures SlotsPredate(env, Login(env, st, req, now).state)
  {
    var st' := Login(env, st, req, now).state;
    forall i | 0 <= i < |st'.accounts| ensures SlotPredates(env, st'.accounts[i].refresh, st'.serial) {
      LoginSlotStep(env, st, req, now, i);
      StepKeepsSlotPredates(env, st, st', LoginEndpoint, now, i);
    }
  }

  lemma LogoutPreservesSlotsPredate(env: Env, st: State, req: Request, now: Time)
    requires FreshSerials(env) && SlotsPredate(env, st)
    ensures SlotsPredate(env, Logout(env, st, req, now).state)
  {
    var st' := Logout(env, st, req, now).state;
    forall i | 0 <= i < |st'.accounts| ensures SlotPredates(env, st'.accounts[i].refresh, st'.serial) {
      LogoutSlotStep(env, st, req, now, i);
      StepKeepsSlotPredates(env, st, st', LogoutEndpoint, now, i);
    }
  }

  lemma RefreshPreservesSlotsPredate(env: Env, st: State, req: Request, now: Time)
    requires Valid(st) && FreshSerials(env) && SlotsPredate(env, st)
    ensures SlotsPredate(env, Refresh(env, st, req, now).state)
  {
    var st' := Refresh(env, st, req, now).state;
    forall i | 0 <= i < |st'.accounts| ensures SlotPredates(env, st'.accounts[i].refresh, st'.serial) {
      RefreshSlotStep(env, st, req, now, i);
      StepKeepsSlotPredates(env, st, st', RefreshEndpoint, now, i);
    }
  }

  /** A slot that keeps its token, is emptied, or receives one minted at the old counter value predates the new one. */
  lemma StepKeepsSlotPredates(env: Env, st: State, st': State, ep: Endpoint, now: Time, i: nat)
    requires FreshSerials(env) && i < |st.accounts| && SlotPredates(env, st.accounts[i].refresh, st.serial)
    requires SlotStep(env, st, st', ep, now, i)
    ensures SlotPredates(env, st'.accounts[i].refresh, st'.serial)
  {
    var slot := st'.accounts[i].refresh;
    if slot != st.accounts[i].refresh && slot.Active? {
      MintedSlotPredates(env, slot, st.serial, st'.serial);
    }
  }

  /** The slot of a freshly registered account predates every later counter value. */
  lemma RegisteredSlotPredates(env: Env, st: State, req: Request, now: Time)
    requires FreshSerials(env) && RegisterFieldsPresent(req) && !Taken(st, req)
    ensures var s := Register(env, st, req, now).state;
      |s.accounts| == |st.accounts| + 1 && SlotPredates(env, s.accounts[|st.accounts|].refresh, s.serial)
  {
    var s := Register(env, st, req, now).state;
    RegisteredSlot(env, st, req, now);
    var slot := s.accounts[|st.accounts|].refresh;
    if slot.Active? {
      MintedSlotPredates(env, slot, st.serial, s.serial);
    }
  }

  /** Only a registration that passes its checks adds an account, and it adds exactly one. */
  lemma OnlyRegisterGrows(env: Env, st: State, ep: Endpoint, req: Request, now: Time)
    ensures var st' := Handle(env, st, ep, req, now).state;
      |st'.accounts| > |st.accounts| ==>
        && ep == RegisterEndpoint && RegisterFieldsPresent(req) && !Taken(st, req)
        && |st'.accounts| == |st.accounts| + 1
  {
    match ep
    case RegisterEndpoint =>
      if RegisterFieldsPresent(req) && !Taken(st, req) {
        RegisterAppends(env, st, req, now);
      }
    case LoginEndpoint =>
    case LogoutEndpoint =>
    case RefreshEndpoint =>
  }

  /** A token minted at counter value `serial` differs from every token minted at a later value. */
  lemma MintedSlotPredates(env: Env, slot: Slot, serial: nat, serial': nat)
    requires FreshSerials(env) && serial' > serial
    requires slot.Empty? || exists p, t :: slot.token == env.sign(RefreshDomain, p, t, serial)
    ensures SlotPredates(env, slot, serial')
  {
    if slot.Active? {
      var p0, t0 :| slot.token == env.sign(RefreshDomain, p0, t0, serial);
      forall p, t, k | k >= serial' ensures slot.token != env.sign(RefreshDomain, p, t, k) {
        assert k != serial;
      }
    }
  }

  // ------------------------------------------------------ single-use rotation

  /**
   Rotation is single use: after a successful refresh, presenting the same
   refresh token again is refused (as a mismatch whenever it has not
   expired) and changes nothing.
   */
  lemma RefreshIsSingleUse(env: Env, st: State, req: Request, now: Time, again: Request, later: Time)
    requires Valid(st) && SlotsPredate(env, st)
    requires CheckRefresh(env, st, req, now).Success? && env.accessSecretSet
    requires PresentedRefreshToken(again) == PresentedRefreshToken(req)
    ensures var st' := Refresh(env, st, req, now).state;
      && CheckRefresh(env, st', again, later) in {Failure(Mismatch), Failure(InvalidRefresh)}
      && (env.live(RefreshDomain, PresentedRefreshToken(req).value, later) ==>
            CheckRefresh(env, st', again, later) == Failure(Mismatch))
      && Refresh(env, st', again, later).state == st'
  {
    var i := CheckRefresh(env, st, req, now).value;
    var stale := PresentedRefreshToken(req).value;
    var st' := Refresh(env, st, req, now).state;
    var minted := env.sign(RefreshDomain, RefreshPayload(st.accounts[i]), now, st.serial);
    assert st'.accounts[i].refresh == Active(minted);
    assert stale != minted;
  }

  /**
   The state machine of one slot: once logout has emptied it, no refresh
   token is accepted for that account until a login stores a new one.
   */
  lemma LogoutRevokesRefresh(env: Env, st: State, req: Request, now: Time, later: Request, t: Time)
    requires Valid(st)
    requires LogoutIdentity(env, req, now).Some? && LogoutIdentity(env, req, now).value < |st.accounts|
    ensures var st' := Logout(env, st, req, now).state;
      CheckRefresh(env, st', later, t) != Success(LogoutIdentity(env, req, now).value)
  {
  }

  // ------------------------------------------ registration and later calls

  /**
   A registered account can log in: a login naming the registered username
   in any letter case, with a password the credential check accepts, finds
   exactly the new account and stores a fresh refresh token in its slot.
   */
  lemma RegisteredAccountCanLogIn(env: Env, st: State, reg: Request, now: Time, login: Request, later: Time)
    requires Valid(st) && SecretsSet(env)
    requires RegisterFieldsPresent(reg) && !Taken(st, reg)
    requires Truthy(Field(login.body, "username"))
    requires Normalize(Field(login.body, "username").value) == Normalize(Field(reg.body, "username").value)
    requires !Truthy(Field(login.body, "email"))
    requires Truthy(Field(login.body, "password"))
    requires env.passwordOk(Field(reg.body, "password").value, Field(login.body, "password").value)
    ensures var st1 := Register(env, st, reg, now).state;
      var s := Login(env, st1, login, later);
      && LoginTarget(st1, login) == Some(|st.accounts|)
      && s.outcome.issued.Some?
      && s.state.accounts[|st.accounts|].refresh == Active(s.outcome.issued.value.refresh)
      && (Negotiate(login) == JsonFormat ==>
            s.outcome.reply == Json(Ok) && s.outcome.user.Some? && s.outcome.user.value.id == |st.accounts|)
  {
    var st1 := Register(env, st, reg, now).state;
    var n := |st.accounts|;
    RegisteredIsFoundByUsername(env, st, reg, now, Field(login.body, "username").value);
    assert LoginTarget(st1, login) == Some(n);
    assert st1.accounts[n].password == Field(reg.body, "password").value;
  }

  /** Registration appends the new account and leaves the existing ones as they were. */
  lemma RegisterAppends(env: Env, st: State, reg: Request, now: Time)
    requires RegisterFieldsPresent(reg) && !Taken(st, reg)
    ensures var st1 := Register(env, st, reg, now).state;
      && |st1.accounts| == |st.accounts| + 1
      && st1.accounts[..|st.accounts|] == st.accounts
      && st1.accounts[|st.accounts|].(refresh := Empty) == NewAccount(st, reg, now)
  {
  }

  /** The first account with a given username is found when no earlier one has it. */
  lemma FindFirstByUsername(accounts: seq<Account>, n: nat, u: string)
    requires n < |accounts| && accounts[n].username == u
    requires forall j :: 0 <= j < n ==> accounts[j].username != u
    ensures FindAccount(accounts, Some(u), None) == Some(n)
  {
    assert Matches(accounts[n], Some(u), None);
    forall j | 0 <= j < n ensures !Matches(accounts[j], Some(u), None) {
    }
    var r := FindAccount(accounts, Some(u), None);
    assert r.Some? && r.value <= n;
  }

  /** After a registration, looking up its normalised username finds the new account. */
  lemma RegisteredIsFoundByUsername(env: Env, st: State, reg: Request, now: Time, name: string)
    requires RegisterFieldsPresent(reg) && !Taken(st, reg)
    requires Normalize(name) == Normalize(Field(reg.body, "username").value)
    ensures var st1 := Register(env, st, reg, now).state;
      FindAccount(st1.accounts, Some(Normalize(name)), None) == Some(|st.accounts|)
  {
    var accts := Register(env, st, reg, now).state.accounts;
    var n := |st.accounts|;
    var acct := NewAccount(st, reg, now);
    RegisterAppends(env, st, reg, now);
    forall j | 0 <= j < n
      ensures accts[j].username != acct.username
    {
      assert accts[j] == accts[..n][j];
      assert !Matches(st.accounts[j], Some(acct.username), Some(acct.email));
    }
    FindFirstByUsername(accts, n, acct.username);
  }

  /** Logging in with the username exactly as the server returned it finds the account it names. */
  lemma StoredUsernameIsItsOwnKey(st: State, i: nat)
    requires Valid(st) && i < |st.accounts|
    requires st.accounts[i].username == Normalize(st.accounts[i].username)
    ensures FindAccount(st.accounts, Some(Normalize(st.accounts[i].username)), None) == Some(i)
  {
    var r := FindAccount(st.accounts, Some(Normalize(st.accounts[i].username)), None);
    assert Matches(st.accounts[i], Some(st.accounts[i].username), None);
  }

  /** Every account created by registration stores its username in normalised form. */
  lemma RegisteredUsernameIsNormalized(env: Env, st: State, reg: Request, now: Time)
    requires RegisterFieldsPresent(reg) && !Taken(st, reg)
    ensures var a := Register(env, st, reg, now).state.accounts[|st.accounts|];
      a.username == Normalize(a.username) && a.email == Normalize(a.email)
  {
    NormalizeIdempotent(Field(reg.body, "username").value);
    NormalizeIdempotent(Field(reg.body, "email").value);
  }

  /**
   Registering a second time with the same email in another letter case is
   a conflict and changes nothing.
   */
  lemma SameEmailAnyCaseConflicts(env: Env, st: State, first: Request, now: Time, second: Request, later: Time)
    requires RegisterFieldsPresent(first) && !Taken(st, first)
    requires RegisterFieldsPresent(second)
    requires Lower(Field(second.body, "email").value) == Lower(Field(first.body, "email").value)
    ensures var st1 := Register(env, st, first, now).state;
      var s := Register(env, st1, second, later);
      && s.state == st1
      && s.outcome.reply == (if Negotiate(second) == Html then Redirect("/auth/register?error=exists") else Json(Conflict))
  {
    var st1 := Register(env, st, first, now).state;
    var n := |st.accounts|;
    var e := Normalize(Field(second.body, "email").value);
    assert st1.accounts[n].email == e;
    assert Matches(st1.accounts[n], Some(Normalize(Field(second.body, "username").value)), Some(e));
  }
}
