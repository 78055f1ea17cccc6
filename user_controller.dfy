/** The account request handlers (backend/controllers/userController.js): input checks,
    status codes, and what each handler leaves in the session. The session store is a
    value passed in and handed back. */
module UserController {
  import opened Common
  import opened UserModel

  datatype RegisterBody = RegisterBody(username: Option<string>, email: Option<string>, password: Option<string>)

  datatype LoginBody = LoginBody(username: Option<string>, password: Option<string>)

  /** The user fields a response may carry: never a password. */
  datatype PublicUser = PublicUser(id: nat, username: string, email: string)

  datatype Response =
    | Registered(message: string, user: PublicUser)
    | LoggedIn(message: string, user: PublicUser)
    | LoggedOut(message: string)
    | Current(current: SessionUser)
    | Failure(status: int, message: string)

  function Status(r: Response): int
  {
    match r
    case Registered(_, _) => 201
    case Failure(status, _) => status
    case _ => 200
  }

  const InvalidCredentials := "Invalid credentials"
  const NotAuthenticated := "Not authenticated"

  predicate HasRegistration(body: RegisterBody)
  {
    Provided(body.username) && Provided(body.email) && Provided(body.password)
  }

  predicate HasCredentials(body: LoginBody)
  {
    Provided(body.username) && Provided(body.password)
  }

  /** `register`: 400 for a missing field, 400 for a username in use, then `User.create`;
      its rejection (an email in use) is a 500. The response leaves the password out. */
  method Register(users: UserTable, body: RegisterBody, salt: seq<bv8>, now: int) returns (r: Response)
    requires users.Valid()
    modifies users
    ensures users.Valid()
    ensures !HasRegistration(body) ==> r == Failure(400, "Please provide username, email, and password")
    ensures Status(r) == 400 <==> !HasRegistration(body) || UsernameTaken(old(users.rows), body.username.value)
    ensures HasRegistration(body) && UsernameTaken(old(users.rows), body.username.value) ==>
              r == Failure(400, "Username already exists")
    ensures Status(r) == 500 <==>
              HasRegistration(body) && !UsernameTaken(old(users.rows), body.username.value)
              && EmailTaken(old(users.rows), body.email.value)
    ensures Status(r) in {201, 400, 500}
    ensures Status(r) == 201 <==> r.Registered?
    ensures Status(r) != 201 ==> users.rows == old(users.rows) && users.lastId == old(users.lastId)
    ensures r.Registered? ==>
              && users.lastId == old(users.lastId) + 1
              && r.user == PublicUser(users.lastId, body.username.value, body.email.value)
              && users.lastId !in old(users.rows)
              && users.rows == old(users.rows)[users.lastId := User(users.lastId, body.username.value,
                   body.email.value, Some(users.Hash(body.password.value, SaltRounds, salt)), None, None, "local", now)]
  {
    if !HasRegistration(body) {
      return Failure(400, "Please provide username, email, and password");
    }
    var existing := users.FindByUsername(body.username.value);
    if existing.Some? {
      return Failure(400, "Username already exists");
    }
    var created := users.Create(body.username.value, body.email.value, body.password.value, salt, now);
    match created
    case Err(_) =>
      r := Failure(500, "Server error during registration");
    case Ok(u) =>
      r := Registered("User registered successfully", PublicUser(u.id, u.username, u.email));
  }

  /** `login`: 400 for a missing field; 401 with one message for an unknown username and
      for a wrong password; 500 when the row has no password hash (bcrypt throws).
      Success stores exactly id, username and email of the row in the session. */
  method Login(users: UserTable, session: Session, body: LoginBody) returns (r: Response, after: Session)
    requires users.Valid()
    ensures Status(r) == 400 <==> !HasCredentials(body)
    ensures Status(r) == 401 <==>
              HasCredentials(body)
              && (!UsernameTaken(users.rows, body.username.value)
                  || exists u :: u in users.rows.Values && u.username == body.username.value
                                 && users.VerifyPassword(body.password.value, u.password) == Ok(false))
    ensures Status(r) == 401 ==> r == Failure(401, InvalidCredentials)
    ensures Status(r) == 500 <==>
              HasCredentials(body)
              && exists u :: u in users.rows.Values && u.username == body.username.value && u.password.None?
    ensures Status(r) in {200, 400, 401, 500}
    ensures Status(r) != 200 ==> after == session
    ensures Status(r) == 200 ==>
              exists u :: u in users.rows.Values && u.username == body.username.value
                && users.VerifyPassword(body.password.value, u.password) == Ok(true)
                && after == Some(Basic(u.id, u.username, u.email))
                && r == LoggedIn("Login successful", PublicUser(u.id, u.username, u.email))
  {
    after := session;
    if !HasCredentials(body) {
      return Failure(400, "Please provide username and password"), after;
    }
    var found := users.FindByUsername(body.username.value);
    if found.None? {
      return Failure(401, InvalidCredentials), after;
    }
    var user := found.value;
    var matched := users.VerifyPassword(body.password.value, user.password);
    match matched
    case Err(_) =>
      r := Failure(500, "Server error during login");
    case Ok(false) =>
      r := Failure(401, InvalidCredentials);
    case Ok(true) =>
      after := Some(Basic(user.id, user.username, user.email));
      r := LoggedIn("Login successful", PublicUser(user.id, user.username, user.email));
  }

  /** `logout`: destroy the session; a failure of the session store is a 500. */
  method Logout(session: Session, storeFails: bool) returns (r: Response, after: Session)
    ensures storeFails <==> r == Failure(500, "Error logging out")
    ensures storeFails ==> after == session
    ensures !storeFails ==> r == LoggedOut("Logged out successfully") && after.None?
  {
    if storeFails {
      return Failure(500, "Error logging out"), session;
    }
    r, after := LoggedOut("Logged out successfully"), None;
  }

  /** `getCurrentUser`: 401 without a session user; 401 and a destroyed session when the
      row is gone; otherwise the session user is replaced by the row's fresh public
      fields, which are also returned. */
  method GetCurrentUser(users: UserTable, session: Session) returns (r: Response, after: Session)
    requires users.Valid()
    ensures session.None? ==> r == Failure(401, NotAuthenticated) && after == session
    ensures session.Some? && session.value.id !in users.rows ==>
              r == Failure(401, "User not found") && after.None?
    ensures session.Some? && session.value.id in users.rows ==>
              var u := users.rows[session.value.id];
              && after == Some(Refreshed(u.id, u.username, u.email, u.profilePicture, u.authType))
              && r == Current(after.value)
  {
    if session.None? {
      return Failure(401, NotAuthenticated), session;
    }
    var found := users.FindById(session.value.id);
    if found.None? {
      return Failure(401, "User not found"), None;
    }
    var v := found.value;
    after := Some(Refreshed(v.id, v.username, v.email, v.profilePicture, v.authType));
    r := Current(after.value);
  }
}
