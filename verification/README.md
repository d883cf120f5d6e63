# Account lifecycle of the Flask user application

A Dafny model of the account routes of `app.py`: sign-up, e-mail
confirmation, sign-in, password-reset request, password-reset confirmation,
password change and account deletion. Each route is a pure transition

    (user table, session slot, request input, clock) -> (user table', session slot', outcome)

where the outcome is the branch the route took (what its flash message and
redirect tell the user). The user table is a sequence of `User` rows in rowid
order with unique id, username and e-mail columns; the session slot is the id
`login_user` stored, if any.

The two foreign libraries are modelled as ideal primitives with their
expected laws proved as lemmas:

- bcrypt (`Passwords`): `Hash(password, salt)` is a free constructor, so it
  is collision-free, and `Check` re-hashes under the embedded salt, as
  `checkpw` does. The password column has type `Credential`, not `string`, so
  no route can store a password string as it is. This guarantee comes from
  the types alone: the model's digest keeps its preimage, so the one-way
  nature of bcrypt is not modelled.
- itsdangerous (`Tokens`): a token records what its signature certifies. That
  is the e-mail address, the issue time, and the signing key derived from the
  secret key and the salt (`email-confirmation` or `password-reset`). `Loads`
  checks the signature first, then the age against `max_age = 3600`. A tampered
  or undecodable token is `Malformed`.

Modules: `Options` (the optional value), `Passwords`, `Tokens`, `Users` (the
table, its queries and row updates), `Accounts` (the routes, a request
dispatcher `Apply` and traces `Run`), `AccountProperties` (guards and
invariants) and `Scenario` (one user's whole lifecycle).

Modelling choices that follow the code:

- Sign-up checks only the e-mail address (app.py:113). A taken username gets
  through that check and fails at commit on the unique constraint
  (app.py:37). Nothing handles that failure. The model gives it its own
  outcome, `UsernameConflict` (an HTTP 500), and leaves the table unchanged.
- In both token routes the user lookup `first_or_404()` sits inside the `try`.
  Its 404 is caught by `except Exception`, so a good token for an address no
  row holds ends as "invalid link" (`ConfirmationInvalid`, `ResetLinkInvalid`).
- The code tells the user whether a link expired or was invalid; these are
  distinct flash messages, and the model keeps them as distinct outcomes.
- Sending mail has no effect in the model, and every send is assumed to
  succeed. The token the mail would carry is returned in the outcome
  (`AccountCreated`, `ResetLinkSent`).
- `reset_password_confirm` checks the token and its user before the form, so a
  bad link wins over an unsubmitted form. A good link with an unsubmitted or
  mismatched form re-renders the form.
- The `EqualTo` validator of the password forms is a branch of the model:
  mismatched passwords re-render the form and change nothing. All other
  validators are folded into the form input being `None`.
- `@login_required` is modelled: a session that does not name an existing row
  yields `LoginRequired`.
- A new row gets the id SQLite gives an INTEGER PRIMARY KEY without
  AUTOINCREMENT: the largest id plus one. An id can therefore come back after
  the largest-id user deletes the account. For this reason "no confirmation
  is ever taken back" is stated per request (`ApplyKeepsConfirmation`) rather
  than across whole traces.
- A token whose age is negative (issued after `now`) counts as expired, as in
  itsdangerous.

Most lemmas assume `Valid` of the table: no two rows share an id, a username
or an address. The database's unique constraints enforce this, and
`ApplyKeepsInv` / `RunKeepsInv` prove that every route keeps it.

The model has one session slot, that of the client making the requests. Its
part of the invariant, that the session names an existing user, holds only
for that slot. `StaleSessionReattaches` shows what happens to a session of
another client whose user was deleted: it holds an id no row has. When that
id is the one the table hands out next, the next sign-up's row becomes its
current user.

## Model

| member | source | states |
|---|---|---|
| Passwords.CheckHash | app.py:148 | a password always checks against its own bcrypt hash |
| Passwords.CheckOnlyOwnPassword | app.py:148 | a candidate checks against a hash exactly when it is the hashed password |
| Passwords.HashIsSalted | app.py:116 | one password under two salts gives two different stored values, and it checks against both |
| Tokens.Generate | app.py:93-95 | a token generated under a key and salt loads back to its address under that key and salt at the moment it is issued |
| Tokens.RoundTrip | app.py:93-95 | a token issued under a key and salt loads back to its address throughout its one-hour window |
| Tokens.ExpiresAfterMaxAge | app.py:191 | a correctly signed token older than 3600 s is reported expired |
| Tokens.PurposeScoped | app.py:95 | a token issued under one salt is invalid under any other salt, whatever its age |
| Tokens.ForeignKeyRejected | app.py:94 | a token signed under another secret key is invalid |
| Tokens.LoadedOnlyIfIssued | app.py:129 | whatever loads successfully was issued for that address, key and salt within the last hour |
| Users.Find | app.py:147 | the first row holding the value, or none exactly when no row holds it |
| Users.FindUnique | app.py:37-38 | in a table that keeps the unique constraints, a query on a unique column returns the one row holding the value |
| Users.NextId | app.py:36 | the id of a newly inserted row is positive and held by no existing row |
| Users.UpdateKeepsValid | app.py:195 | rewriting a row without touching its unique columns keeps the unique constraints |
| Users.UpdateKeepsQueries | app.py:195 | rewriting a row without touching its unique columns keeps every query's answer |
| Users.AppendKeepsValid | app.py:117-119 | inserting a row whose id, username and address are unused keeps the unique constraints |
| Users.RemoveAtKeepsOthers | app.py:227 | deleting a row keeps the constraints, removes every row with that id and keeps every other row |
| Accounts.CurrentUser | app.py:212 | the current user is the row whose id the session holds; there is none when nobody is logged in or the row is gone |
| Accounts.Signup | app.py:109-123 | a taken address is refused; a taken username fails at the constraint; otherwise exactly one row is appended and a confirmation token for the address is issued; the session never changes |
| Accounts.ConfirmEmail | app.py:125-141 | only a good confirmation token for an unconfirmed user changes the table, by confirming that user; every other branch leaves all state alone |
| Accounts.Signin | app.py:143-156 | never changes the table; a session starts only for a confirmed user whose password checks; an unknown username is an invalid-credentials outcome |
| Accounts.ResetPassword | app.py:170-184 | never changes state; a reset token for the address is sent exactly when some row holds it, otherwise the address is reported unknown |
| Accounts.ResetPasswordConfirm | app.py:186-205 | only a good reset token for an existing user, with an accepted form, changes the table, by rehashing that user's password |
| Accounts.ChangePassword | app.py:207-220 | the login wall holds exactly when there is no current user; the password changes exactly when the form is accepted and the old password checks, and then only the current user's password, to the hash of the new one; otherwise nothing changes |
| Accounts.DeleteAccount | app.py:222-232 | deletion happens exactly on a POST by a logged-in user; it removes that user's row and ends the session; otherwise nothing changes |
| AccountProperties.SignupRejectsDuplicateEmail | app.py:113-115 | sign-up with an address already present reports it and leaves the state unchanged |
| AccountProperties.SignupAddsOneUser | app.py:116-120 | successful sign-up appends one row with a fresh id, the given username and address, the hash of the password, and no confirmation; existing rows stay, the table stays valid |
| AccountProperties.ConfirmSetsFlag | app.py:129-134 | a good confirmation token for an unconfirmed user confirms that user and changes no other row or column |
| AccountProperties.ConfirmIdempotent | app.py:135-136 | a good token for an already confirmed user reports so and changes nothing |
| AccountProperties.ConfirmTwice | app.py:129-136 | using a confirmation link a second time while it is good changes nothing |
| AccountProperties.ConfirmUnknownAddress | app.py:130 | a good token for an address no row holds ends as an invalid link with no change |
| AccountProperties.ResetTokenRejectedByConfirm | app.py:139-140 | a password-reset token used as a confirmation link is invalid and changes nothing |
| AccountProperties.ConfirmationTokenRejectedByReset | app.py:202-204 | a confirmation token used as a reset link is invalid and changes nothing, whatever the form |
| AccountProperties.ExpiredConfirmationRejected | app.py:137-138 | a confirmation link older than an hour reports expiry and changes nothing |
| AccountProperties.ExpiredResetRejected | app.py:199-201 | a reset link older than an hour reports expiry and changes nothing, whatever the form |
| AccountProperties.SigninGate | app.py:147-152 | sign-in succeeds exactly when the username exists, the password checks and the user is confirmed, and the session is then that user's |
| AccountProperties.SigninNoEnumeration | app.py:154-155 | an unknown username and a wrong password give the same outcome and the same state |
| AccountProperties.SigninConfirmFirst | app.py:153 | the right password on an unconfirmed user asks for confirmation and starts no session |
| AccountProperties.ResetRequestSendsLink | app.py:174-182 | for a known address a password-reset token for that address is sent and the state is unchanged |
| AccountProperties.ResetChangesOnlyPassword | app.py:191-197 | a good reset link with matching passwords changes only that user's password, to the hash of the new one |
| AccountProperties.ResetTokenReplayable | app.py:189-196 | a reset link is not consumed: used again while good, it resets the password again |
| AccountProperties.ChangeChangesOnlyPassword | app.py:213-217 | with the right old password only the current user's password changes, and the new password checks |
| AccountProperties.ChangeRejectsWrongPassword | app.py:219 | a wrong old password is refused and changes nothing |
| AccountProperties.DeleteRemovesCurrentUser | app.py:225-230 | deletion removes exactly the logged-in user's row, keeps every other row and ends the session |
| AccountProperties.LoginRequiredIffNoSession | app.py:207-209 | in a reachable state the login wall is hit exactly when nobody is logged in |
| AccountProperties.StaleSessionReattaches | app.py:44-46 | a session holding an id no row has, when that id is the next one handed out, resolves after the next sign-up to the new user's row |
| AccountProperties.ApplyKeepsInv | app.py:35-41 | every route keeps the unique constraints and keeps the modelled session pointing at an existing user |
| AccountProperties.KeysKept | app.py:195 | rewriting a row without touching its unique columns keeps the invariant |
| AccountProperties.ApplyKeepsConfirmation | app.py:131-132 | no route ever turns a confirmed user back into an unconfirmed one |
| AccountProperties.RunKeepsInv | app.py:35-41 | any sequence of requests from a valid state ends in a valid state |
| Scenario.AliceLifecycle | app.py:109-205 | sign-up, confirmation, sign-in, reset request and reset succeed in turn; afterwards the old password is refused and the new one accepted |

## Left out

- Flask routing, templates, `flash` and `redirect`: only the outcome tag of each branch is kept.
- The HTTP error handlers (app.py:49-63) and the `load_user` loader (app.py:44-46). The loader is reduced to the id lookup in `CurrentUser`.
- Sessions of other clients. The model keeps the session of the requesting client only. `delete_account` logs out that client alone (app.py:229). Another client still holding the deleted id is not invalidated. That client is kept out only while no row has the id, and `StaleSessionReattaches` shows how a reused id lets it in again.
- The `index`, `profile` and `logout` routes (app.py:105-107, 158-168). They are not part of the account transitions modelled here.
- WTForms validators other than `EqualTo` (`DataRequired`, `Email`): they are library code. A form that fails them is the same as no submission (`None`).
- SQLAlchemy session and commit mechanics, and the declared string column lengths, which SQLite does not enforce. The table is an in-memory sequence.
- Flask-Mail (app.py:97-102, 178-180): sending is network I/O, so the model assumes every send succeeds and gives it no effect. In the code a failing `mail.send` raises out of the route as an HTTP 500. The code does not handle it. In `signup` this happens after the commit (app.py:119): the new unconfirmed row stays, and no confirmation link reaches the user. In `reset_password` nothing has changed, and no link is sent.
- Concurrent requests. Requests are applied one at a time (`Accounts.Apply`, `Accounts.Run`), while the development server (app.py:237) serves requests on several threads. Two sign-ups with the same address can both pass the query at app.py:113. The second then fails at commit (app.py:119) on the e-mail unique constraint (app.py:38). That error is not handled, so it is an HTTP 500, not the "Email already exists." outcome. `AccountProperties.SignupRejectsDuplicateEmail` and the account of sign-up above therefore hold for serialized requests only. The same check-then-act gap applies to the other routes' queries and updates.
- bcrypt internals: the model has no collisions. It also ignores the 72-byte password limit, where bcrypt truncates the password or rejects it, depending on the version.
- itsdangerous internals: HMAC, JSON serialization and URL-safe encoding. Signature forgery is outside the model.
- Randomness and the clock: `bcrypt.gensalt()` and the current time are parameters of each route. The row's `created_at` takes the request time.
- Configuration loading (app.py:14-26) and config.py. The secret key is a parameter (`Config`).
- Accounts.Signin: it states the one direction that holds for any table. The "exactly when" direction needs unique usernames and is `AccountProperties.SigninGate`.
- Accounts.ConfirmEmail: likewise, the "exactly when" direction is `AccountProperties.ConfirmSetsFlag` together with `AccountProperties.ConfirmIdempotent`.
