/**
 * The account routes as pure transitions. Each route takes the user table,
 * the one session slot (the id `login_user` stored, if any), its request
 * input and the clock, and yields the new table, the new session and the
 * outcome: the branch the route took, which is what its flash message and
 * redirect tell the user.
 *
 * Form input is `None` when the route is reached by GET or a field validator
 * other than `EqualTo` rejected the submission; `validate_on_submit()` is then
 * false and the route renders its template (`FormShown`). The `EqualTo` check
 * of the password forms is part of the model. Mail sending has no observable
 * effect here; the token a mail would carry is returned in the outcome.
 */
module Accounts {
  import opened Options
  import opened Passwords
  import opened Tokens
  import opened Users

  /** The process-wide configuration the routes read: the signing secret. */
  datatype Config = Config(secretKey: string)

  /** The user table plus the session's user id. */
  datatype State = State(users: Table, session: Option<Id>)

  datatype Outcome =
    | FormShown
    | EmailExists
    | UsernameConflict
    | AccountCreated(confirmation: Token)
    | EmailConfirmed
    | AlreadyConfirmed
    | ConfirmationExpired
    | ConfirmationInvalid
    | SignedIn
    | ConfirmFirst
    | InvalidCredentials
    | ResetLinkSent(reset: Token)
    | EmailNotFound
    | PasswordResetDone
    | ResetLinkExpired
    | ResetLinkInvalid
    | PasswordChanged
    | IncorrectOldPassword
    | AccountDeleted
    | LoginRequired

  datatype Step = Step(state: State, outcome: Outcome)

  datatype SignupForm = SignupForm(username: string, email: string, password: string)
  datatype SigninForm = SigninForm(username: string, password: string)
  datatype ResetForm = ResetForm(email: string)
  datatype NewPasswordForm = NewPasswordForm(newPassword: string, confirmPassword: string)
  datatype ChangePasswordForm = ChangePasswordForm(oldPassword: string, newPassword: string, confirmPassword: string)
  datatype Verb = Get | Post

  /** `validate_on_submit()` of the reset form: submitted, and `EqualTo` holds. */
  predicate NewPasswordAccepted(form: Option<NewPasswordForm>)
  {
    form.Some? && form.value.newPassword == form.value.confirmPassword
  }

  /** `validate_on_submit()` of the change form: submitted, and `EqualTo` holds. */
  predicate ChangeAccepted(form: Option<ChangePasswordForm>)
  {
    form.Some? && form.value.newPassword == form.value.confirmPassword
  }

  /** `current_user` behind `@login_required`: the row of the session's id. */
  function CurrentUser(st: State): (r: Option<nat>)
    ensures r.Some? ==> r.value < |st.users| && st.session == Some(st.users[r.value].id)
    ensures r.None? <==> st.session.None? || !Has(st.users, ById(st.session.value))
  {
    if st.session.None? then None else Find(st.users, ById(st.session.value))
  }

  /** The row a new sign-up inserts. */
  function NewUser(users: Table, form: SignupForm, salt: Salt, now: int): User
  {
    User(NextId(users), form.username, form.email, Hash(form.password, salt), now, false)
  }

  /** `signup`: rejects a taken e-mail address; a taken username passes that
      check and fails at commit on the unique constraint, which nothing
      handles; otherwise inserts an unconfirmed user holding the bcrypt hash
      and mails an e-mail-confirmation token for the new address. */
  function Signup(cfg: Config, st: State, form: Option<SignupForm>, salt: Salt, now: int): (r: Step)
    ensures r.state.session == st.session
    ensures !r.outcome.AccountCreated? ==> r.state == st
    ensures form.Some? && Has(st.users, ByEmail(form.value.email)) ==> r.outcome == EmailExists
    ensures r.outcome == UsernameConflict <==>
      form.Some? && !Has(st.users, ByEmail(form.value.email)) && Has(st.users, ByUsername(form.value.username))
    ensures r.outcome.AccountCreated? <==>
      form.Some? && !Has(st.users, ByEmail(form.value.email)) && !Has(st.users, ByUsername(form.value.username))
    ensures r.outcome.AccountCreated? ==>
      && |r.state.users| == |st.users| + 1
      && r.state.users[..|st.users|] == st.users
      && r.outcome.confirmation == Generate(cfg.secretKey, form.value.email, EmailConfirmationSalt, now)
  {
    match form
    case None => Step(st, FormShown)
    case Some(f) =>
      if Find(st.users, ByEmail(f.email)).Some? then Step(st, EmailExists)
      else if Find(st.users, ByUsername(f.username)).Some? then Step(st, UsernameConflict)
      else
        var users' := st.users + [NewUser(st.users, f, salt, now)];
        Step(st.(users := users'), AccountCreated(Generate(cfg.secretKey, f.email, EmailConfirmationSalt, now)))
  }

  /** `confirm_email(token)`: an expired token, any other bad token, and a
      good token for an address no row holds (the 404 of `first_or_404` is
      caught by the catch-all) end the same way as their flash messages
      say; a good token confirms its user, unless already confirmed. */
  function ConfirmEmail(cfg: Config, st: State, token: Token, now: int): (r: Step)
    ensures r.state.session == st.session
    ensures r.outcome != EmailConfirmed ==> r.state == st
    ensures r.outcome == EmailConfirmed ==>
      exists i :: 0 <= i < |st.users| && !st.users[i].isConfirmed
        && Loads(cfg.secretKey, token, EmailConfirmationSalt, MaxAge, now) == Loaded(st.users[i].email)
        && r.state.users == st.users[i := st.users[i].(isConfirmed := true)]
  {
    match Loads(cfg.secretKey, token, EmailConfirmationSalt, MaxAge, now)
    case Expired => Step(st, ConfirmationExpired)
    case Invalid => Step(st, ConfirmationInvalid)
    case Loaded(email) =>
      match Find(st.users, ByEmail(email))
      case None => Step(st, ConfirmationInvalid)
      case Some(i) =>
        if !st.users[i].isConfirmed then
          Step(st.(users := st.users[i := st.users[i].(isConfirmed := true)]), EmailConfirmed)
        else
          Step(st, AlreadyConfirmed)
  }

  /** `signin`: looks the user up by username; a missing user and a wrong
      password give the same outcome; a right password on an unconfirmed
      user does not start a session. */
  function Signin(st: State, form: Option<SigninForm>): (r: Step)
    ensures r.state.users == st.users
    ensures r.state.session != st.session ==> r.outcome == SignedIn
    ensures r.outcome == SignedIn ==>
      && form.Some?
      && (exists i :: 0 <= i < |st.users| && st.users[i].username == form.value.username
           && Check(form.value.password, st.users[i].password) && st.users[i].isConfirmed
           && r.state.session == Some(st.users[i].id))
    ensures form.Some? && !Has(st.users, ByUsername(form.value.username)) ==> r == Step(st, InvalidCredentials)
  {
    match form
    case None => Step(st, FormShown)
    case Some(f) =>
      match Find(st.users, ByUsername(f.username))
      case Some(i) =>
        if Check(f.password, st.users[i].password) then
          if st.users[i].isConfirmed then Step(st.(session := Some(st.users[i].id)), SignedIn)
          else Step(st, ConfirmFirst)
        else Step(st, InvalidCredentials)
      case None => Step(st, InvalidCredentials)
  }

  /** `reset_password`: for an address some row holds, mails a
      password-reset token for that address; otherwise says it is unknown.
      Never changes the state. */
  function ResetPassword(cfg: Config, st: State, form: Option<ResetForm>, now: int): (r: Step)
    ensures r.state == st
    ensures r.outcome.ResetLinkSent? <==> form.Some? && Has(st.users, ByEmail(form.value.email))
    ensures r.outcome.ResetLinkSent? ==>
      r.outcome.reset == Generate(cfg.secretKey, form.value.email, PasswordResetSalt, now)
    ensures form.Some? && !Has(st.users, ByEmail(form.value.email)) ==> r.outcome == EmailNotFound
  {
    match form
    case None => Step(st, FormShown)
    case Some(f) =>
      match Find(st.users, ByEmail(f.email))
      case Some(i) => Step(st, ResetLinkSent(Generate(cfg.secretKey, st.users[i].email, PasswordResetSalt, now)))
      case None => Step(st, EmailNotFound)
  }

  /** `reset_password_confirm(token)`: the token and its user are checked
      before the form, so a bad link wins over an unsubmitted form; a good
      link with an accepted form stores the new password's hash. The token
      is not marked used. */
  function ResetPasswordConfirm(cfg: Config, st: State, token: Token, form: Option<NewPasswordForm>, salt: Salt, now: int): (r: Step)
    ensures r.state.session == st.session
    ensures r.outcome != PasswordResetDone ==> r.state == st
    ensures r.outcome == PasswordResetDone ==>
      && NewPasswordAccepted(form)
      && (exists i :: 0 <= i < |st.users|
           && Loads(cfg.secretKey, token, PasswordResetSalt, MaxAge, now) == Loaded(st.users[i].email)
           && r.state.users == st.users[i := st.users[i].(password := Hash(form.value.newPassword, salt))])
  {
    match Loads(cfg.secretKey, token, PasswordResetSalt, MaxAge, now)
    case Expired => Step(st, ResetLinkExpired)
    case Invalid => Step(st, ResetLinkInvalid)
    case Loaded(email) =>
      match Find(st.users, ByEmail(email))
      case None => Step(st, ResetLinkInvalid)
      case Some(i) =>
        if NewPasswordAccepted(form) then
          var u := st.users[i].(password := Hash(form.value.newPassword, salt));
          Step(st.(users := st.users[i := u]), PasswordResetDone)
        else
          Step(st, FormShown)
  }

  /** `change_password`: behind `@login_required`; stores the new password's
      hash only when the old password checks against the current user's. */
  function ChangePassword(st: State, form: Option<ChangePasswordForm>, salt: Salt): (r: Step)
    ensures r.state.session == st.session
    ensures r.outcome != PasswordChanged ==> r.state == st
    ensures r.outcome == LoginRequired <==> CurrentUser(st).None?
    ensures r.outcome == PasswordChanged <==>
      CurrentUser(st).Some? && ChangeAccepted(form)
      && Check(form.value.oldPassword, st.users[CurrentUser(st).value].password)
    ensures r.outcome == PasswordChanged ==>
      var i := CurrentUser(st).value;
      r.state.users == st.users[i := st.users[i].(password := Hash(form.value.newPassword, salt))]
  {
    match CurrentUser(st)
    case None => Step(st, LoginRequired)
    case Some(i) =>
      if !ChangeAccepted(form) then Step(st, FormShown)
      else if Check(form.value.oldPassword, st.users[i].password) then
        var u := st.users[i].(password := Hash(form.value.newPassword, salt));
        Step(st.(users := st.users[i := u]), PasswordChanged)
      else Step(st, IncorrectOldPassword)
  }

  /** `delete_account`: behind `@login_required`; a POST deletes the current
      user's row and logs out. */
  function DeleteAccount(st: State, verb: Verb): (r: Step)
    ensures r.outcome != AccountDeleted ==> r.state == st
    ensures r.outcome == AccountDeleted <==> CurrentUser(st).Some? && verb == Post
    ensures r.outcome == AccountDeleted ==>
      r.state == State(RemoveAt(st.users, CurrentUser(st).value), None)
  {
    match CurrentUser(st)
    case None => Step(st, LoginRequired)
    case Some(i) =>
      if verb == Post then Step(State(RemoveAt(st.users, i), None), AccountDeleted)
      else Step(st, FormShown)
  }

  /** One request to one of the account routes. */
  datatype Request =
    | SignupRequest(signup: Option<SignupForm>, signupSalt: Salt)
    | ConfirmRequest(confirmToken: Token)
    | SigninRequest(signin: Option<SigninForm>)
    | ResetRequest(reset: Option<ResetForm>)
    | ResetConfirmRequest(resetToken: Token, newPassword: Option<NewPasswordForm>, resetSalt: Salt)
    | ChangeRequest(change: Option<ChangePasswordForm>, changeSalt: Salt)
    | DeleteRequest(verb: Verb)

  /** Dispatches a request, made at time `now`, to its route. */
  function Apply(cfg: Config, st: State, req: Request, now: int): Step
  {
    match req
    case SignupRequest(form, salt) => Signup(cfg, st, form, salt, now)
    case ConfirmRequest(token) => ConfirmEmail(cfg, st, token, now)
    case SigninRequest(form) => Signin(st, form)
    case ResetRequest(form) => ResetPassword(cfg, st, form, now)
    case ResetConfirmRequest(token, form, salt) => ResetPasswordConfirm(cfg, st, token, form, salt, now)
    case ChangeRequest(form, salt) => ChangePassword(st, form, salt)
    case DeleteRequest(verb) => DeleteAccount(st, verb)
  }

  /** The state after a sequence of timed requests. */
  function Run(cfg: Config, st: State, trace: seq<(Request, int)>): State
    decreases |trace|
  {
    if |trace| == 0 then st
    else Run(cfg, Apply(cfg, st, trace[0].0, trace[0].1).state, trace[1..])
  }
}
