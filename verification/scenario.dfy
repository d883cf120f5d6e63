/**
 * The account lifecycle end to end, for one new user: sign up, confirm,
 * sign in, request a reset, reset the password; afterwards the old password is
 * refused and the new one accepted.
 */
module Scenario {
  import opened Options
  import opened Passwords
  import opened Tokens
  import opened Users
  import opened Accounts
  import opened AccountProperties

  /** Alice's lifecycle, from any valid state where neither her address nor
      her username is taken, with each link used within its hour. */
  lemma {:induction false} AliceLifecycle(cfg: Config, st0: State, s1: Salt, s2: Salt, t0: int, t1: int, t2: int, t3: int)
    requires Inv(st0)
    requires !Has(st0.users, ByEmail("alice@x.com")) && !Has(st0.users, ByUsername("alice"))
    requires t0 <= t1 <= t0 + MaxAge && t2 <= t3 <= t2 + MaxAge
    ensures
      var r1 := Signup(cfg, st0, Some(SignupForm("alice", "alice@x.com", "pw1")), s1, t0);
      && r1.outcome.AccountCreated?
      && var r2 := ConfirmEmail(cfg, r1.state, r1.outcome.confirmation, t1);
      && r2.outcome == EmailConfirmed
      && var r3 := Signin(r2.state, Some(SigninForm("alice", "pw1")));
      && r3.outcome == SignedIn
      && var r4 := ResetPassword(cfg, r3.state, Some(ResetForm("alice@x.com")), t2);
      && r4.outcome.ResetLinkSent?
      && var r5 := ResetPasswordConfirm(cfg, r4.state, r4.outcome.reset, Some(NewPasswordForm("pw2", "pw2")), s2, t3);
      && r5.outcome == PasswordResetDone
      && Signin(r5.state, Some(SigninForm("alice", "pw1"))).outcome == InvalidCredentials
      && Signin(r5.state, Some(SigninForm("alice", "pw2"))).outcome == SignedIn
  {
    var n := |st0.users|;
    var signup := SignupForm("alice", "alice@x.com", "pw1");
    var r1 := Signup(cfg, st0, Some(signup), s1, t0);
    SignupAddsOneUser(cfg, st0, signup, s1, t0);
    var alice := r1.state.users[n];

    RoundTrip(cfg.secretKey, "alice@x.com", EmailConfirmationSalt, t0, t1);
    ConfirmSetsFlag(cfg, r1.state, r1.outcome.confirmation, t1, n);
    var r2 := ConfirmEmail(cfg, r1.state, r1.outcome.confirmation, t1);
    UpdateKeepsValid(r1.state.users, n, r2.state.users[n]);
    assert r2.state.users == r1.state.users[n := r2.state.users[n]];

    CheckHash("pw1", s1);
    SigninGate(r2.state, SigninForm("alice", "pw1"));
    assert Check("pw1", r2.state.users[n].password);
    var r3 := Signin(r2.state, Some(SigninForm("alice", "pw1")));

    assert Matches(r3.state.users[n], ByEmail("alice@x.com"));
    ResetRequestSendsLink(cfg, r3.state, ResetForm("alice@x.com"), t2);
    var r4 := ResetPassword(cfg, r3.state, Some(ResetForm("alice@x.com")), t2);

    RoundTrip(cfg.secretKey, "alice@x.com", PasswordResetSalt, t2, t3);
    ResetChangesOnlyPassword(cfg, r4.state, r4.outcome.reset, NewPasswordForm("pw2", "pw2"), s2, t3, n);
    var r5 := ResetPasswordConfirm(cfg, r4.state, r4.outcome.reset, Some(NewPasswordForm("pw2", "pw2")), s2, t3);
    UpdateKeepsValid(r4.state.users, n, r5.state.users[n]);
    assert r5.state.users == r4.state.users[n := r5.state.users[n]];

    CheckOnlyOwnPassword("pw2", "pw1", s2);
    SigninNoEnumeration(r5.state, SigninForm("alice", "pw1"));
    SigninGate(r5.state, SigninForm("alice", "pw2"));
  }
}
