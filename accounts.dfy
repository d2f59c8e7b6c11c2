/*
 * The account forms: signing up and resetting a forgotten password after
 * the e-mailed one-time code was verified. Users are kept by database id;
 * a username belongs to at most one user.
 */
module Accounts {
  import opened Optional

  datatype User = User(username: string, email: string, password: string)

  /** No two users share a username. */
  predicate UniqueUsernames(users: map<int, User>) {
    forall a, b :: a in users && b in users && a != b ==> users[a].username != users[b].username
  }

  predicate Taken(users: map<int, User>, name: string) {
    exists id :: id in users && users[id].username == name
  }

  /** The posted sign-up form. */
  datatype SignupForm = SignupForm(username: string, email: string, password1: string, password2: string)

  /**
   * HomeRedirect: already logged in. SignupPage: the blank form (a GET, or
   * the form again with an error message). ServerError: `create_user`
   * refuses an empty username.
   */
  datatype SignupOutcome = HomeRedirect | SignupPage | PasswordsDiffer | UsernameTaken | ServerError | AccountCreated

  datatype SignupResult = SignupResult(outcome: SignupOutcome, users: map<int, User>)

  /**
   * signup_view. `newId` is the id the database hands out to a new row. The
   * passwords are compared before the username is looked up.
   */
  function Signup(authenticated: bool, post: Option<SignupForm>, users: map<int, User>, newId: int): (r: SignupResult)
    requires newId !in users
    ensures r.outcome != AccountCreated ==> r.users == users
    ensures r.outcome == AccountCreated <==>
              && !authenticated && post.Some? && post.value.password1 == post.value.password2
              && !Taken(users, post.value.username) && post.value.username != ""
    ensures r.outcome == AccountCreated ==>
              r.users == users[newId := User(post.value.username, post.value.email, post.value.password1)]
  {
    if authenticated then SignupResult(HomeRedirect, users)
    else if post.None? then SignupResult(SignupPage, users)
    else
      var f := post.value;
      if f.password1 != f.password2 then SignupResult(PasswordsDiffer, users)
      else if Taken(users, f.username) then SignupResult(UsernameTaken, users)
      else if f.username == "" then SignupResult(ServerError, users)
      else SignupResult(AccountCreated, users[newId := User(f.username, f.email, f.password1)])
  }

  /** Signing up never gives a username to a second user. */
  lemma SignupKeepsUsernamesUnique(authenticated: bool, post: Option<SignupForm>, users: map<int, User>, newId: int)
    requires newId !in users && UniqueUsernames(users)
    ensures UniqueUsernames(Signup(authenticated, post, users, newId).users)
  {
    var r := Signup(authenticated, post, users, newId);
    if r.outcome == AccountCreated {
      forall a, b | a in r.users && b in r.users && a != b
        ensures r.users[a].username != r.users[b].username
      {
        if a == newId {
          assert b in users && users[b].username != post.value.username;
        } else if b == newId {
          assert a in users && users[a].username != post.value.username;
        }
      }
    }
  }

  /** The posted passwords of the reset form. */
  datatype ResetForm = ResetForm(pass1: string, pass2: string)

  /**
   * What the session holds between the three reset steps: the user the code
   * was sent to and whether the code was verified.
   */
  datatype Session = Session(resetUserId: Option<int>, otpVerified: bool)

  /** `if not user_id`: a missing id and id 0 are both falsy. */
  predicate HasResetUser(s: Session) {
    s.resetUserId.Some? && s.resetUserId.value != 0
  }

  /**
   * ToForgotPassword: back to the first step. ResetPage: the form (a GET,
   * or again with the error). NoSuchUser: `User.objects.get` raises for an
   * id no longer in the table.
   */
  datatype ResetOutcome = ToForgotPassword | ResetPage | PasswordsMismatch | NoSuchUser | PasswordChanged

  /** The new state: the users, the users holding a one-time code, the session. */
  datatype ResetResult = ResetResult(outcome: ResetOutcome, users: map<int, User>, codes: set<int>, session: Session)

  /**
   * reset_password_view: only a session with a user and a verified code may
   * change a password; a change deletes that user's codes and clears the
   * session.
   */
  function ResetPassword(session: Session, post: Option<ResetForm>, users: map<int, User>, codes: set<int>): (r: ResetResult)
    ensures r.users != users ==> r.outcome == PasswordChanged
    ensures r.outcome == PasswordChanged <==>
              && HasResetUser(session) && session.otpVerified && post.Some?
              && post.value.pass1 == post.value.pass2 && session.resetUserId.value in users
    ensures r.outcome == PasswordChanged ==>
              var id := session.resetUserId.value;
              && r.users == users[id := users[id].(password := post.value.pass1)]
              && r.codes == codes - {id}
              && r.session == Session(None, false)
    ensures r.outcome != PasswordChanged ==> r.users == users && r.codes == codes && r.session == session
  {
    if !HasResetUser(session) || !session.otpVerified then ResetResult(ToForgotPassword, users, codes, session)
    else if post.None? then ResetResult(ResetPage, users, codes, session)
    else if post.value.pass1 != post.value.pass2 then ResetResult(PasswordsMismatch, users, codes, session)
    else
      var id := session.resetUserId.value;
      if id !in users then ResetResult(NoSuchUser, users, codes, session)
      else
        ResetResult(PasswordChanged, users[id := users[id].(password := post.value.pass1)], codes - {id}, Session(None, false))
  }

  /**
   * A reset touches one user's password only, keeps usernames unique, and
   * cannot be replayed: the cleared session sends the same form back to the
   * first step.
   */
  lemma ResetIsOneShot(session: Session, post: Option<ResetForm>, users: map<int, User>, codes: set<int>)
    requires UniqueUsernames(users)
    ensures var r := ResetPassword(session, post, users, codes);
            && UniqueUsernames(r.users)
            && r.users.Keys == users.Keys
            && (forall id :: id in users ==> (r.users[id].username == users[id].username && r.users[id].email == users[id].email))
            && (r.outcome == PasswordChanged ==>
                  ResetPassword(r.session, post, r.users, r.codes).outcome == ToForgotPassword)
  {
    var r := ResetPassword(session, post, users, codes);
    if r.outcome == PasswordChanged {
      var id := session.resetUserId.value;
      forall a, b | a in r.users && b in r.users && a != b
        ensures r.users[a].username != r.users[b].username
      {
        assert r.users[a].username == users[a].username;
        assert r.users[b].username == users[b].username;
      }
    }
  }
}
