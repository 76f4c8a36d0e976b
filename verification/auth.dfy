/** The sign-up and login routes, src/app/api/auth/signup/route.ts and
    src/app/api/auth/login/route.ts: a sequence of guards, each answering
    with an error status, followed by writes to the in-memory store and a
    response that carries the user without its password and the new
    session's token. The random ids, the token and the clock are
    parameters; an absent or empty body field is the empty string. */
module AuthRoutes {
  import opened Seqs
  import opened Entities
  import opened MemoryStore

  /** The sign-up body. */
  datatype SignupBody = SignupBody(
    firstName: string,
    lastName: string,
    email: string,
    password: string,
    confirmPassword: string,
    githubUsername: Option<string>,
    experience: string,
    goals: seq<string>,
    timeCommitment: string)

  /** The login body. */
  datatype LoginBody = LoginBody(email: string, password: string)

  /** A user as the routes return it: every field except the password. */
  datatype PublicUser = PublicUser(
    id: string,
    firstName: string,
    lastName: string,
    email: string,
    githubUsername: Option<string>,
    experience: string,
    goals: seq<string>,
    timeCommitment: string,
    createdAt: int,
    updatedAt: int)

  /** The response: an error with its HTTP status, or the user and token. */
  datatype AuthResponse = Rejected(status: int, error: string) | Accepted(user: PublicUser, token: string)

  /** The outcome of a route's guards: the error response, or what the
      route goes on with. */
  datatype Gate<T> = Reject(status: int, error: string) | Pass(value: T)

  /** `const { password, ...userResponse } = user`. */
  function Public(u: User): (p: PublicUser) {
    PublicUser(u.id, u.firstName, u.lastName, u.email, u.githubUsername, u.experience,
               u.goals, u.timeCommitment, u.createdAt, u.updatedAt)
  }

  /** The public view loses the password and nothing else: two users with
      the same view and the same password are the same user. */
  lemma PublicDropsOnlyPassword(u: User, v: User)
    ensures Public(u) == Public(v) && u.password == v.password <==> u == v
  {
    if Public(u) == Public(v) {
      assert Public(u).id == Public(v).id && Public(u).goals == Public(v).goals;
    }
  }

  const MissingFields := "Missing required fields"
  const PasswordMismatch := "Passwords do not match"
  const EmailTaken := "User with this email already exists"
  const CredentialsRequired := "Email and password are required"
  const InvalidCredentials := "Invalid email or password"

  /** The five fields sign-up requires are all truthy. */
  predicate HasRequiredFields(body: SignupBody) {
    body.firstName != "" && body.lastName != "" && body.email != ""
    && body.password != "" && body.confirmPassword != ""
  }

  /** The data sign-up hands to `users.create`: every body field except the
      confirmation, as given, the password included. */
  function Registration(body: SignupBody): (data: NewUser)
    ensures data.email == body.email && data.password == body.password
    ensures data.firstName == body.firstName && data.lastName == body.lastName
    ensures data.githubUsername == body.githubUsername && data.experience == body.experience
    ensures data.goals == body.goals && data.timeCommitment == body.timeCommitment
  {
    NewUser(body.firstName, body.lastName, body.email, body.password, body.githubUsername,
            body.experience, body.goals, body.timeCommitment)
  }

  /** The sign-up guards, in order: 400 for a missing field, 400 for a
      confirmation that differs, 409 for an email already in the store;
      otherwise the data to create. */
  function SignupCheck(users: seq<User>, body: SignupBody): (r: Gate<NewUser>)
    ensures r == Reject(400, MissingFields) <==> !HasRequiredFields(body)
    ensures r == Reject(400, PasswordMismatch) <==> HasRequiredFields(body) && body.password != body.confirmPassword
    ensures r == Reject(409, EmailTaken) <==>
      HasRequiredFields(body) && body.password == body.confirmPassword
      && exists j :: 0 <= j < |users| && users[j].email == body.email
    ensures r.Pass? <==>
      HasRequiredFields(body) && body.password == body.confirmPassword
      && forall j :: 0 <= j < |users| ==> users[j].email != body.email
    ensures r.Pass? ==> r.value == Registration(body)
  {
    if !HasRequiredFields(body) then Reject(400, MissingFields)
    else if body.password != body.confirmPassword then Reject(400, PasswordMismatch)
    else if FindByEmail(users, body.email).Some? then Reject(409, EmailTaken)
    else Pass(Registration(body))
  }

  /** The login guards, in order: 400 for a missing email or password,
      401 for an email no user has, 401 with the same message for a
      password that differs from the stored one; otherwise the first user
      with that email. */
  function LoginCheck(users: seq<User>, body: LoginBody): (r: Gate<User>)
    ensures r.Pass? || r == Reject(400, CredentialsRequired) || r == Reject(401, InvalidCredentials)
    ensures r == Reject(400, CredentialsRequired) <==> body.email == "" || body.password == ""
    ensures r == Reject(401, InvalidCredentials) <==>
      body.email != "" && body.password != ""
      && (|| (forall j :: 0 <= j < |users| ==> users[j].email != body.email)
          || (exists i :: 0 <= i < |users| && users[i].email == body.email && users[i].password != body.password
                          && forall j :: 0 <= j < i ==> users[j].email != body.email))
    ensures r.Pass? ==>
      exists i :: 0 <= i < |users| && users[i] == r.value
                  && r.value.email == body.email && r.value.password == body.password
                  && forall j :: 0 <= j < i ==> users[j].email != body.email
  {
    if body.email == "" || body.password == "" then Reject(400, CredentialsRequired)
    else match FindByEmail(users, body.email)
      case None => Reject(401, InvalidCredentials)
      case Some(u) =>
        if u.password != body.password then
          assert exists i :: 0 <= i < |users| && users[i].email == body.email && users[i].password != body.password
                             && forall j :: 0 <= j < i ==> users[j].email != body.email;
          Reject(401, InvalidCredentials)
        else Pass(u)
  }

  /** With unique emails, the 401 answer does not tell an unknown email from
      a wrong password, and a login passes exactly for a stored pair. */
  lemma LoginAcceptsExactlyStoredCredentials(users: seq<User>, body: LoginBody)
    requires EmailsUnique(users)
    requires body.email != "" && body.password != ""
    ensures LoginCheck(users, body).Pass? <==>
      exists i :: 0 <= i < |users| && users[i].email == body.email && users[i].password == body.password
    ensures LoginCheck(users, body).Reject? ==> LoginCheck(users, body) == Reject(401, InvalidCredentials)
  {
    var r := LoginCheck(users, body);
    if i :| 0 <= i < |users| && users[i].email == body.email && users[i].password == body.password {
      var u := FindByEmail(users, body.email);
      var k :| 0 <= k < |users| && users[k] == u.value && u.value.email == body.email
                && forall j :: 0 <= j < k ==> users[j].email != body.email;
      assert k == i;
    }
  }

  /** A sign-up that passes its guards keeps emails unique. */
  lemma SignupKeepsEmailsUnique(users: seq<User>, body: SignupBody, id: string, now: int)
    requires EmailsUnique(users) && SignupCheck(users, body).Pass?
    ensures EmailsUnique(users + [NewRecord(SignupCheck(users, body).value, id, now)])
  {
    var all := users + [NewRecord(SignupCheck(users, body).value, id, now)];
    assert forall j :: 0 <= j < |users| ==> all[j] == users[j];
  }

  /** Right after a sign-up, the same email and password log in as the new
      user, and signing up again with that email is refused with 409. */
  lemma SignupThenLogin(users: seq<User>, body: SignupBody, again: SignupBody, id: string, now: int)
    requires SignupCheck(users, body).Pass?
    requires HasRequiredFields(again) && again.password == again.confirmPassword && again.email == body.email
    ensures var u := NewRecord(Registration(body), id, now);
      && LoginCheck(users + [u], LoginBody(body.email, body.password)) == Pass(u)
      && SignupCheck(users + [u], again) == Reject(409, EmailTaken)
  {
    var u := NewRecord(Registration(body), id, now);
    FindByEmailAfterCreate(users, u, body.email);
    assert (users + [u])[|users|].email == again.email;
  }

  /** The sign-up route against the store. On a guard's error nothing is
      written; otherwise one user and one session for it are appended and
      the response carries the user without its password and the token. */
  method Signup(db: Database, body: SignupBody, userId: string, sessionId: string, token: string, now: int)
    returns (r: AuthResponse)
    modifies db
    ensures SignupCheck(old(db.users), body).Reject? ==>
      && r == Rejected(SignupCheck(old(db.users), body).status, SignupCheck(old(db.users), body).error)
      && db.users == old(db.users) && db.sessions == old(db.sessions)
    ensures SignupCheck(old(db.users), body).Pass? ==>
      var u := NewRecord(Registration(body), userId, now);
      && db.users == old(db.users) + [u]
      && db.sessions == old(db.sessions) + [NewSession(userId, sessionId, token, now)]
      && r == Accepted(Public(u), token)
    ensures db.projects == old(db.projects)
    ensures EmailsUnique(old(db.users)) ==> EmailsUnique(db.users)
  {
    var gate := SignupCheck(db.users, body);
    if gate.Reject? {
      return Rejected(gate.status, gate.error);
    }
    ghost var before := db.users;
    var user := db.CreateUser(gate.value, userId, now);
    var session := db.CreateSession(user.id, sessionId, token, now);
    if EmailsUnique(before) {
      SignupKeepsEmailsUnique(before, body, userId, now);
    }
    r := Accepted(Public(user), session.token);
  }

  /** The login route against the store. On a guard's error nothing is
      written; otherwise one session for the user is appended and the
      response carries the user without its password and the token. */
  method Login(db: Database, body: LoginBody, sessionId: string, token: string, now: int)
    returns (r: AuthResponse)
    modifies db
    ensures LoginCheck(old(db.users), body).Reject? ==>
      && r == Rejected(LoginCheck(old(db.users), body).status, LoginCheck(old(db.users), body).error)
      && db.sessions == old(db.sessions)
    ensures LoginCheck(old(db.users), body).Pass? ==>
      var u := LoginCheck(old(db.users), body).value;
      && db.sessions == old(db.sessions) + [NewSession(u.id, sessionId, token, now)]
      && r == Accepted(Public(u), token)
    ensures db.users == old(db.users) && db.projects == old(db.projects)
  {
    var gate := LoginCheck(db.users, body);
    if gate.Reject? {
      return Rejected(gate.status, gate.error);
    }
    var session := db.CreateSession(gate.value.id, sessionId, token, now);
    r := Accepted(Public(gate.value), session.token);
  }

  /** The token a successful login or sign-up returns finds a session of
      that user for one day, provided no earlier session has the token. */
  lemma IssuedTokenAuthenticates(sessions: seq<Session>, u: User, sessionId: string, token: string, now: int, later: int)
    requires forall j :: 0 <= j < |sessions| ==> sessions[j].token != token
    ensures var found := FindByToken(sessions + [NewSession(u.id, sessionId, token, now)], token, later);
      && (found.Some? <==> later <= now + SessionLifetime)
      && (found.Some? ==> found.value.userId == u.id)
  {
    CreatedSessionIsFound(sessions, u.id, sessionId, token, now, later);
  }
}
