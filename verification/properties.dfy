/**
 * Properties of the account routes: the invariants every request keeps, the
 * guards each route enforces, and how tokens of one purpose, or past their
 * window, are turned away.
 */
module AccountProperties {
  import opened Options
  import opened Passwords
  import opened Tokens
  import opened Users
  import opened Accounts

  /** A logged-in session names a row that exists. */
  ghost predicate SessionLive(st: State)
  {
    st.session.Some? ==> Has(st.users, ById(st.session.value))
  }

  /** What every reachable state satisfies: the unique constraints hold and
      the session, if any, belongs to an existing user. */
  ghost predicate Inv(st: State)
  {
    Valid(st.users) && SessionLive(st)
  }

  // ---------------------------------------------------------------- signup

  /** Sign-up with an e-mail address already in the table is refused and
      changes nothing. */
  lemma SignupRejectsDuplicateEmail(cfg: Config, st: State, form: SignupForm, salt: Salt, now: int)
    requires Has(st.users, ByEmail(form.email))
    ensures Signup(cfg, st, Some(form), salt, now) == Step(st, EmailExists)
  {
  }

  /** Successful sign-up appends exactly one row: a fresh id, the given
      username and address, the bcrypt hash of the password (never the
      password itself), the request time, and no confirmation yet. Existing
      rows and the session are untouched, and the table stays valid. */
  lemma SignupAddsOneUser(cfg: Config, st: State, form: SignupForm, salt: Salt, now: int)
    requires Valid(st.users)
    requires !Has(st.users, ByEmail(form.email)) && !Has(st.users, ByUsername(form.username))
    ensures var r := Signup(cfg, st, Some(form), salt, now);
      && r.outcome == AccountCreated(Generate(cfg.secretKey, form.email, EmailConfirmationSalt, now))
      && r.state.session == st.session
      && |r.state.users| == |st.users| + 1
      && r.state.users[..|st.users|] == st.users
      && var u := r.state.users[|st.users|];
      && !Has(st.users, ById(u.id))
      && u.username == form.username && u.email == form.email
      && u.password == Hash(form.password, salt) && Check(form.password, u.password)
      && u.createdAt == now && !u.isConfirmed
      && Valid(r.state.users)
  {
    var u := NewUser(st.users, form, salt, now);
    AppendKeepsValid(st.users, u);
  }

  // ------------------------------------------------------- e-mail confirmation

  /** A good confirmation token for an unconfirmed user confirms that user
      and changes no other row and no other column. */
  lemma ConfirmSetsFlag(cfg: Config, st: State, token: Token, now: int, j: nat)
    requires Valid(st.users) && j < |st.users| && !st.users[j].isConfirmed
    requires Loads(cfg.secretKey, token, EmailConfirmationSalt, MaxAge, now) == Loaded(st.users[j].email)
    ensures var r := ConfirmEmail(cfg, st, token, now);
      && r.outcome == EmailConfirmed
      && r.state.session == st.session
      && OthersUnchanged(st.users, r.state.users, j)
      && OnlyConfirmationDiffers(st.users[j], r.state.users[j])
      && r.state.users[j].isConfirmed
  {
    FindUnique(st.users, ByEmail(st.users[j].email), j);
  }

  /** Confirmation is idempotent: a good token for an already confirmed user
      reports so and changes nothing. */
  lemma ConfirmIdempotent(cfg: Config, st: State, token: Token, now: int, j: nat)
    requires Valid(st.users) && j < |st.users| && st.users[j].isConfirmed
    requires Loads(cfg.secretKey, token, EmailConfirmationSalt, MaxAge, now) == Loaded(st.users[j].email)
    ensures ConfirmEmail(cfg, st, token, now) == Step(st, AlreadyConfirmed)
  {
    FindUnique(st.users, ByEmail(st.users[j].email), j);
  }

  /** Using a confirmation link twice: the second use, at any time the token
      is still good, finds the user confirmed and changes nothing. */
  lemma ConfirmTwice(cfg: Config, st: State, token: Token, now: int, later: int)
    requires Valid(st.users)
    requires ConfirmEmail(cfg, st, token, now).outcome == EmailConfirmed
    requires Loads(cfg.secretKey, token, EmailConfirmationSalt, MaxAge, later).Loaded?
    ensures var st' := ConfirmEmail(cfg, st, token, now).state;
      ConfirmEmail(cfg, st', token, later) == Step(st', AlreadyConfirmed)
  {
    var r := ConfirmEmail(cfg, st, token, now);
    var i :| 0 <= i < |st.users| && !st.users[i].isConfirmed
      && Loads(cfg.secretKey, token, EmailConfirmationSalt, MaxAge, now) == Loaded(st.users[i].email)
      && r.state.users == st.users[i := st.users[i].(isConfirmed := true)];
    UpdateKeepsValid(st.users, i, st.users[i].(isConfirmed := true));
    UpdateKeepsQueries(st.users, i, st.users[i].(isConfirmed := true), ByEmail(st.users[i].email));
    ConfirmIdempotent(cfg, r.state, token, later, i);
  }

  /** A good token for an address no row holds ends as an invalid link (the
      404 raised by `first_or_404` is caught by the catch-all). */
  lemma ConfirmUnknownAddress(cfg: Config, st: State, token: Token, now: int, email: string)
    requires Loads(cfg.secretKey, token, EmailConfirmationSalt, MaxAge, now) == Loaded(email)
    requires !Has(st.users, ByEmail(email))
    ensures ConfirmEmail(cfg, st, token, now) == Step(st, ConfirmationInvalid)
  {
  }

  // ------------------------------------------------ purpose scope and expiry

  /** A password-reset token presented as a confirmation link is invalid and
      changes nothing. */
  lemma ResetTokenRejectedByConfirm(cfg: Config, st: State, email: string, issuedAt: int, now: int)
    ensures ConfirmEmail(cfg, st, Generate(cfg.secretKey, email, PasswordResetSalt, issuedAt), now)
      == Step(st, ConfirmationInvalid)
  {
    PurposeScoped(cfg.secretKey, email, PasswordResetSalt, EmailConfirmationSalt, issuedAt, now);
  }

  /** A confirmation token presented as a reset link is invalid and changes
      nothing, whatever the form holds. */
  lemma ConfirmationTokenRejectedByReset(cfg: Config, st: State, email: string, issuedAt: int,
                                         form: Option<NewPasswordForm>, salt: Salt, now: int)
    ensures ResetPasswordConfirm(cfg, st, Generate(cfg.secretKey, email, EmailConfirmationSalt, issuedAt), form, salt, now)
      == Step(st, ResetLinkInvalid)
  {
    PurposeScoped(cfg.secretKey, email, EmailConfirmationSalt, PasswordResetSalt, issuedAt, now);
  }

  /** A confirmation link older than an hour reports expiry and changes
      nothing. */
  lemma ExpiredConfirmationRejected(cfg: Config, st: State, email: string, issuedAt: int, now: int)
    requires now - issuedAt > MaxAge
    ensures ConfirmEmail(cfg, st, Generate(cfg.secretKey, email, EmailConfirmationSalt, issuedAt), now)
      == Step(st, ConfirmationExpired)
  {
    ExpiresAfterMaxAge(cfg.secretKey, email, EmailConfirmationSalt, issuedAt, now);
  }

  /** A reset link older than an hour reports expiry and changes nothing,
      whatever the form holds. */
  lemma ExpiredResetRejected(cfg: Config, st: State, email: string, issuedAt: int,
                             form: Option<NewPasswordForm>, salt: Salt, now: int)
    requires now - issuedAt > MaxAge
    ensures ResetPasswordConfirm(cfg, st, Generate(cfg.secretKey, email, PasswordResetSalt, issuedAt), form, salt, now)
      == Step(st, ResetLinkExpired)
  {
    ExpiresAfterMaxAge(cfg.secretKey, email, PasswordResetSalt, issuedAt, now);
  }

  // ---------------------------------------------------------------- sign-in

  /** The confirmation gate: sign-in starts a session exactly when a user with
      that username exists, the password checks against the stored hash, and
      the user is confirmed; the session is then that user's. */
  lemma SigninGate(st: State, form: SigninForm)
    requires Valid(st.users)
    ensures var r := Signin(st, Some(form));
      r.outcome == SignedIn <==>
        exists j :: 0 <= j < |st.users| && st.users[j].username == form.username
          && Check(form.password, st.users[j].password) && st.users[j].isConfirmed
    ensures var r := Signin(st, Some(form));
      forall j :: 0 <= j < |st.users| && st.users[j].username == form.username && r.outcome == SignedIn ==>
        r.state.session == Some(st.users[j].id)
  {
    var r := Signin(st, Some(form));
    if j :| 0 <= j < |st.users| && st.users[j].username == form.username {
      FindUnique(st.users, ByUsername(form.username), j);
    }
  }

  /** No username enumeration: an unknown username and a wrong password for a
      known one produce the same outcome and the same state. */
  lemma SigninNoEnumeration(st: State, form: SigninForm)
    requires Valid(st.users)
    requires || !Has(st.users, ByUsername(form.username))
             || exists j :: 0 <= j < |st.users| && st.users[j].username == form.username
                  && !Check(form.password, st.users[j].password)
    ensures Signin(st, Some(form)) == Step(st, InvalidCredentials)
  {
    if j :| 0 <= j < |st.users| && st.users[j].username == form.username && !Check(form.password, st.users[j].password) {
      FindUnique(st.users, ByUsername(form.username), j);
    }
  }

  /** The right password on an unconfirmed user asks for confirmation first
      and starts no session. */
  lemma SigninConfirmFirst(st: State, form: SigninForm, j: nat)
    requires Valid(st.users) && j < |st.users|
    requires st.users[j].username == form.username && Check(form.password, st.users[j].password)
    requires !st.users[j].isConfirmed
    ensures Signin(st, Some(form)) == Step(st, ConfirmFirst)
  {
    FindUnique(st.users, ByUsername(form.username), j);
  }

  // --------------------------------------------------------- password reset

  /** A reset request never changes the state; a link is sent exactly for an
      address some row holds, and it is a password-reset token for it. */
  lemma ResetRequestSendsLink(cfg: Config, st: State, form: ResetForm, now: int)
    requires Has(st.users, ByEmail(form.email))
    ensures ResetPassword(cfg, st, Some(form), now)
      == Step(st, ResetLinkSent(Generate(cfg.secretKey, form.email, PasswordResetSalt, now)))
  {
  }

  /** A good reset link with matching new passwords changes only that user's
      password column, to the hash of the new password; every other row, every
      other column and the session stay as they were. */
  lemma ResetChangesOnlyPassword(cfg: Config, st: State, token: Token, form: NewPasswordForm, salt: Salt, now: int, j: nat)
    requires Valid(st.users) && j < |st.users|
    requires Loads(cfg.secretKey, token, PasswordResetSalt, MaxAge, now) == Loaded(st.users[j].email)
    requires form.newPassword == form.confirmPassword
    ensures var r := ResetPasswordConfirm(cfg, st, token, Some(form), salt, now);
      && r.outcome == PasswordResetDone
      && r.state.session == st.session
      && OthersUnchanged(st.users, r.state.users, j)
      && OnlyPasswordDiffers(st.users[j], r.state.users[j])
      && r.state.users[j].password == Hash(form.newPassword, salt)
      && Check(form.newPassword, r.state.users[j].password)
  {
    FindUnique(st.users, ByEmail(st.users[j].email), j);
  }

  /** Reset links are not consumed: after a successful reset the same link,
      used again while it is still good, resets the password again. */
  lemma ResetTokenReplayable(cfg: Config, st: State, token: Token, form: NewPasswordForm, salt: Salt, now: int,
                             form2: NewPasswordForm, salt2: Salt, later: int)
    requires Valid(st.users)
    requires ResetPasswordConfirm(cfg, st, token, Some(form), salt, now).outcome == PasswordResetDone
    requires Loads(cfg.secretKey, token, PasswordResetSalt, MaxAge, later).Loaded?
    requires form2.newPassword == form2.confirmPassword
    ensures var st' := ResetPasswordConfirm(cfg, st, token, Some(form), salt, now).state;
      ResetPasswordConfirm(cfg, st', token, Some(form2), salt2, later).outcome == PasswordResetDone
  {
    var r := ResetPasswordConfirm(cfg, st, token, Some(form), salt, now);
    var i :| 0 <= i < |st.users|
      && Loads(cfg.secretKey, token, PasswordResetSalt, MaxAge, now) == Loaded(st.users[i].email)
      && r.state.users == st.users[i := st.users[i].(password := Hash(form.newPassword, salt))];
    UpdateKeepsValid(st.users, i, st.users[i].(password := Hash(form.newPassword, salt)));
    UpdateKeepsQueries(st.users, i, st.users[i].(password := Hash(form.newPassword, salt)), ByEmail(st.users[i].email));
    ResetChangesOnlyPassword(cfg, r.state, token, form2, salt2, later, i);
  }

  // ------------------------------------------------ password change, deletion

  /** A password change with the right old password stores the hash of the
      new one in the current user's row and changes nothing else. */
  lemma ChangeChangesOnlyPassword(st: State, form: ChangePasswordForm, salt: Salt)
    requires CurrentUser(st).Some?
    requires form.newPassword == form.confirmPassword
    requires Check(form.oldPassword, st.users[CurrentUser(st).value].password)
    ensures var r := ChangePassword(st, Some(form), salt);
      var i := CurrentUser(st).value;
      && r.outcome == PasswordChanged
      && r.state.session == st.session
      && OthersUnchanged(st.users, r.state.users, i)
      && OnlyPasswordDiffers(st.users[i], r.state.users[i])
      && Check(form.newPassword, r.state.users[i].password)
  {
  }

  /** A wrong old password is refused and changes nothing. */
  lemma ChangeRejectsWrongPassword(st: State, form: ChangePasswordForm, salt: Salt)
    requires CurrentUser(st).Some?
    requires form.newPassword == form.confirmPassword
    requires !Check(form.oldPassword, st.users[CurrentUser(st).value].password)
    ensures ChangePassword(st, Some(form), salt) == Step(st, IncorrectOldPassword)
  {
  }

  /** Deleting the account removes exactly the logged-in user's row, keeps
      every other row, and ends the session. */
  lemma DeleteRemovesCurrentUser(st: State, id: Id)
    requires Inv(st) && st.session == Some(id)
    ensures var r := DeleteAccount(st, Post);
      && r.outcome == AccountDeleted
      && r.state.session == None
      && !Has(r.state.users, ById(id))
      && |r.state.users| == |st.users| - 1
      && (forall u :: u in r.state.users <==> u in st.users && u.id != id)
      && Valid(r.state.users)
  {
    RemoveAtKeepsOthers(st.users, CurrentUser(st).value);
  }

  /** With the invariant, the login wall is passed exactly when someone is
      logged in. */
  lemma LoginRequiredIffNoSession(st: State, form: Option<ChangePasswordForm>, salt: Salt, verb: Verb)
    requires Inv(st)
    ensures ChangePassword(st, form, salt).outcome == LoginRequired <==> st.session.None?
    ensures DeleteAccount(st, verb).outcome == LoginRequired <==> st.session.None?
  {
  }

  /** Sessions hold a bare user id. A session of another client whose user
      was deleted holds an id no row has; when that id is the next one the
      table hands out, the next sign-up's row becomes that session's current
      user. */
  lemma StaleSessionReattaches(cfg: Config, users: Table, form: SignupForm, salt: Salt, now: int)
    requires Valid(users)
    requires !Has(users, ByEmail(form.email)) && !Has(users, ByUsername(form.username))
    ensures var stale := State(users, Some(NextId(users)));
      && CurrentUser(stale).None?
      && var r := Signup(cfg, stale, Some(form), salt, now);
      && r.outcome.AccountCreated?
      && CurrentUser(r.state) == Some(|users|)
      && r.state.users[|users|].username == form.username
  {
    var stale := State(users, Some(NextId(users)));
    var r := Signup(cfg, stale, Some(form), salt, now);
    SignupAddsOneUser(cfg, stale, form, salt, now);
    FindUnique(r.state.users, ById(NextId(users)), |users|);
  }

  // ------------------------------------------------------- whole-system facts

  /** Every request keeps the invariant. */
  lemma ApplyKeepsInv(cfg: Config, st: State, req: Request, now: int)
    requires Inv(st)
    ensures Inv(Apply(cfg, st, req, now).state)
  {
    var r := Apply(cfg, st, req, now);
    match req
    case SignupRequest(form, salt) =>
      if r.outcome.AccountCreated? {
        var u := NewUser(st.users, form.value, salt, now);
        AppendKeepsValid(st.users, u);
        assert r.state.users == st.users + [u];
        if st.session.Some? {
          var k :| 0 <= k < |st.users| && Matches(st.users[k], ById(st.session.value));
          assert Matches(r.state.users[k], ById(st.session.value));
        }
      }
    case ConfirmRequest(token) =>
      if r.outcome == EmailConfirmed {
        var i :| 0 <= i < |st.users| && !st.users[i].isConfirmed
          && r.state.users == st.users[i := st.users[i].(isConfirmed := true)];
        KeysKept(st, i, st.users[i].(isConfirmed := true));
      }
    case SigninRequest(form) =>
      if r.outcome == SignedIn {
        var i :| 0 <= i < |st.users| && r.state.session == Some(st.users[i].id);
        assert Matches(st.users[i], ById(st.users[i].id));
      }
    case ResetRequest(form) =>
    case ResetConfirmRequest(token, form, salt) =>
      if r.outcome == PasswordResetDone {
        var i :| 0 <= i < |st.users|
          && r.state.users == st.users[i := st.users[i].(password := Hash(form.value.newPassword, salt))];
        KeysKept(st, i, st.users[i].(password := Hash(form.value.newPassword, salt)));
      }
    case ChangeRequest(form, salt) =>
      if r.outcome == PasswordChanged {
        var i := CurrentUser(st).value;
        KeysKept(st, i, st.users[i].(password := Hash(form.value.newPassword, salt)));
      }
    case DeleteRequest(verb) =>
      if r.outcome == AccountDeleted {
        RemoveAtKeepsOthers(st.users, CurrentUser(st).value);
      }
  }

  /** Rewriting one row without touching its unique columns keeps the
      invariant. */
  lemma KeysKept(st: State, i: nat, u: User)
    requires Inv(st) && i < |st.users| && SameKeys(st.users[i], u)
    ensures Inv(st.(users := st.users[i := u]))
  {
    UpdateKeepsValid(st.users, i, u);
    if st.session.Some? {
      UpdateKeepsQueries(st.users, i, u, ById(st.session.value));
    }
  }

  /** No request ever takes a user's confirmation back. */
  lemma ApplyKeepsConfirmation(cfg: Config, st: State, req: Request, now: int)
    requires Valid(st.users)
    ensures ConfirmationKept(st.users, Apply(cfg, st, req, now).state.users)
  {
    var r := Apply(cfg, st, req, now);
    match req
    case SignupRequest(form, salt) =>
      if r.outcome.AccountCreated? {
        AppendKeepsConfirmation(st.users, NewUser(st.users, form.value, salt, now));
      }
    case ConfirmRequest(token) =>
      if r.outcome == EmailConfirmed {
        var k :| 0 <= k < |st.users| && r.state.users == st.users[k := st.users[k].(isConfirmed := true)];
        UpdateKeepsConfirmation(st.users, k, st.users[k].(isConfirmed := true));
      }
    case SigninRequest(form) =>
    case ResetRequest(form) =>
    case ResetConfirmRequest(token, form, salt) =>
      if r.outcome == PasswordResetDone {
        var k :| 0 <= k < |st.users|
          && r.state.users == st.users[k := st.users[k].(password := Hash(form.value.newPassword, salt))];
        UpdateKeepsConfirmation(st.users, k, st.users[k].(password := Hash(form.value.newPassword, salt)));
      }
    case ChangeRequest(form, salt) =>
      if r.outcome == PasswordChanged {
        var k := CurrentUser(st).value;
        UpdateKeepsConfirmation(st.users, k, st.users[k].(password := Hash(form.value.newPassword, salt)));
      }
    case DeleteRequest(verb) =>
      if r.outcome == AccountDeleted {
        RemoveKeepsConfirmation(st.users, CurrentUser(st).value);
      }
  }

  lemma AppendKeepsConfirmation(users: Table, u: User)
    requires Valid(users) && !Has(users, ById(u.id))
    ensures ConfirmationKept(users, users + [u])
  {
    var b := users + [u];
    forall i, j | 0 <= i < |users| && 0 <= j < |b| && users[i].id == b[j].id && users[i].isConfirmed
      ensures b[j].isConfirmed
    {
      if j < |users| {
        assert b[j] == users[j];
      }
    }
  }

  lemma UpdateKeepsConfirmation(users: Table, k: nat, u: User)
    requires Valid(users) && k < |users|
    requires u.id == users[k].id && (users[k].isConfirmed ==> u.isConfirmed)
    ensures ConfirmationKept(users, users[k := u])
  {
  }

  lemma RemoveKeepsConfirmation(users: Table, k: nat)
    requires Valid(users) && k < |users|
    ensures ConfirmationKept(users, RemoveAt(users, k))
  {
    var b := RemoveAt(users, k);
    forall i, j | 0 <= i < |users| && 0 <= j < |b| && users[i].id == b[j].id && users[i].isConfirmed
      ensures b[j].isConfirmed
    {
      var j' := if j < k then j else j + 1;
      assert b[j] == users[j'];
    }
  }

  /** Any sequence of requests from a state satisfying the invariant ends in
      one that satisfies it. */
  lemma {:induction false} RunKeepsInv(cfg: Config, st: State, trace: seq<(Request, int)>)
    requires Inv(st)
    ensures Inv(Run(cfg, st, trace))
    decreases |trace|
  {
    if |trace| > 0 {
      ApplyKeepsInv(cfg, st, trace[0].0, trace[0].1);
      RunKeepsInv(cfg, Apply(cfg, st, trace[0].0, trace[0].1).state, trace[1..]);
    }
  }
}
