/** The users table and the `User` model over it (backend/models/user.js): local
    accounts, point lookups, and the three-way resolution of a Google sign-in. The SQL
    table is an in-memory map from row id to row; `lastId` is the AUTOINCREMENT counter.
    bcrypt is a salted key-derivation function `kdf`, fixed when the table is built. */
module UserModel {
  import opened Common

  /** bcrypt's derivation: (cost, salt, plaintext) to checksum. */
  type Kdf = (nat, seq<bv8>, string) -> seq<bv8>

  /** `bcrypt.hash(password, 10)`. */
  const SaltRounds: nat := 10

  /** What bcrypt stores: the cost, the salt and the derived checksum. */
  datatype PasswordHash = PasswordHash(cost: nat, salt: seq<bv8>, checksum: seq<bv8>)

  /** A row of the users table, with the columns the model reads and writes. */
  datatype User = User(id: nat, username: string, email: string, password: Option<PasswordHash>,
                       googleId: Option<string>, profilePicture: Option<string>,
                       authType: string, createdAt: int)

  /** The columns `findById` selects: no password, no Google id. */
  datatype UserView = UserView(id: nat, username: string, email: string,
                               profilePicture: Option<string>, authType: string, createdAt: int)

  /** The record `create` resolves with. */
  datatype LocalUser = LocalUser(id: nat, username: string, email: string, authType: string)

  /** The fields of a Google profile the resolution reads; `emails` and `photos` are
      lists of values that may be absent altogether. */
  datatype GoogleProfile = GoogleProfile(id: string, displayName: string,
                                         emails: Option<seq<string>>, photos: Option<seq<string>>)

  /** The three shapes `findOrCreateGoogleUser` resolves with: the whole row found by
      Google id, the `findById` projection of the row it linked, or the record it inserted. */
  datatype GoogleUser =
    | Existing(user: User)
    | Linked(view: UserView)
    | Inserted(id: nat, username: string, email: string, googleId: string,
               profilePicture: Option<string>, authType: string)
  {
    function Id(): nat
    {
      match this
      case Existing(u) => u.id
      case Linked(v) => v.id
      case Inserted(id, _, _, _, _, _) => id
    }
  }

  datatype UserError = Constraint(violation: DbError) | EmailRequired | MissingHash

  /** `list && list.length > 0 ? list[0].value : null`. */
  function FirstValue(list: Option<seq<string>>): Option<string>
  {
    if list.Some? && |list.value| > 0 then Some(list.value[0]) else None
  }

  /** The projection `findById` selects. */
  function Project(u: User): UserView
  {
    UserView(u.id, u.username, u.email, u.profilePicture, u.authType, u.createdAt)
  }

  /** The three columns `updateGoogleInfo` sets. */
  function LinkGoogle(u: User, googleId: string, picture: Option<string>): User
  {
    u.(googleId := Some(googleId), profilePicture := picture, authType := "google")
  }

  ghost predicate UsernameTaken(rows: map<nat, User>, username: string)
  {
    exists id :: id in rows && rows[id].username == username
  }

  ghost predicate EmailTaken(rows: map<nat, User>, email: string)
  {
    exists id :: id in rows && rows[id].email == email
  }

  ghost predicate GoogleIdTaken(rows: map<nat, User>, googleId: string)
  {
    exists id :: id in rows && rows[id].googleId == Some(googleId)
  }

  class UserTable {
    var rows: map<nat, User>
    var lastId: nat
    const kdf: Kdf

    /** Each row sits under its own id and ids come from the counter; `username` and
        `email` are UNIQUE (backend/db.js:17-18). A Google id is held by at most one row:
        no schema constraint says so, the resolution below keeps it. */
    ghost predicate Valid()
      reads this
    {
      && (forall id :: id in rows ==> rows[id].id == id && 0 < id <= lastId)
      && (forall i, j :: i in rows && j in rows && rows[i].username == rows[j].username ==> i == j)
      && (forall i, j :: i in rows && j in rows && rows[i].email == rows[j].email ==> i == j)
      && (forall i, j ::
            i in rows && j in rows && rows[i].googleId.Some? && rows[i].googleId == rows[j].googleId ==> i == j)
    }

    constructor (kdf: Kdf)
      ensures Valid() && rows == map[] && lastId == 0 && this.kdf == kdf
    {
      rows := map[];
      lastId := 0;
      this.kdf := kdf;
    }

    function Hash(plain: string, cost: nat, salt: seq<bv8>): PasswordHash
    {
      PasswordHash(cost, salt, kdf(cost, salt, plain))
    }

    /** `User.verifyPassword`, i.e. `bcrypt.compare`: re-derive under the stored cost and
        salt and compare. A missing hash makes bcrypt throw. */
    function VerifyPassword(plain: string, hashed: Option<PasswordHash>): (r: Result<bool, UserError>)
      ensures r.Err? <==> hashed.None?
      ensures r == Ok(true) <==> hashed.Some? && Hash(plain, hashed.value.cost, hashed.value.salt) == hashed.value
    {
      match hashed
      case None => Err(MissingHash)
      case Some(h) => Ok(kdf(h.cost, h.salt, plain) == h.checksum)
    }

    /** The password a hash was made from verifies against it. */
    lemma HashThenVerify(plain: string, salt: seq<bv8>)
      ensures VerifyPassword(plain, Some(Hash(plain, SaltRounds, salt))) == Ok(true)
    {
    }

    /** `User.create`: hash, then INSERT a local account. A username or an email already
        in use violates its UNIQUE constraint and nothing is inserted. */
    method Create(username: string, email: string, password: string, salt: seq<bv8>, now: int)
      returns (r: Result<LocalUser, UserError>)
      requires Valid()
      modifies this
      ensures Valid()
      ensures UsernameTaken(old(rows), username) ==>
                r == Err(Constraint(UniqueViolation("users.username"))) && rows == old(rows) && lastId == old(lastId)
      ensures !UsernameTaken(old(rows), username) && EmailTaken(old(rows), email) ==>
                r == Err(Constraint(UniqueViolation("users.email"))) && rows == old(rows) && lastId == old(lastId)
      ensures !UsernameTaken(old(rows), username) && !EmailTaken(old(rows), email) ==>
                && lastId == old(lastId) + 1 && lastId !in old(rows)
                && r == Ok(LocalUser(lastId, username, email, "local"))
                && rows == old(rows)[lastId := User(lastId, username, email,
                             Some(Hash(password, SaltRounds, salt)), None, None, "local", now)]
    {
      var hashed := Hash(password, SaltRounds, salt);
      if exists id :: id in rows && rows[id].username == username {
        return Err(Constraint(UniqueViolation("users.username")));
      }
      if exists id :: id in rows && rows[id].email == email {
        return Err(Constraint(UniqueViolation("users.email")));
      }
      lastId := lastId + 1;
      rows := rows[lastId := User(lastId, username, email, Some(hashed), None, None, "local", now)];
      r := Ok(LocalUser(lastId, username, email, "local"));
    }

    /** `User.findByUsername` (every column). */
    function FindByUsername(username: string): (r: Option<User>)
      reads this
      requires Valid()
      ensures r.Some? ==> r.value in rows.Values && r.value.username == username
      ensures r.None? ==> forall u :: u in rows.Values ==> u.username != username
    {
      if exists id :: id in rows && rows[id].username == username then
        var id :| id in rows && rows[id].username == username;
        Some(rows[id])
      else None
    }

    /** `User.findByEmail` (every column). */
    function FindByEmail(email: string): (r: Option<User>)
      reads this
      requires Valid()
      ensures r.Some? ==> r.value in rows.Values && r.value.email == email
      ensures r.None? ==> forall u :: u in rows.Values ==> u.email != email
    {
      if exists id :: id in rows && rows[id].email == email then
        var id :| id in rows && rows[id].email == email;
        Some(rows[id])
      else None
    }

    /** `User.findByGoogleId` (every column). */
    function FindByGoogleId(googleId: string): (r: Option<User>)
      reads this
      requires Valid()
      ensures r.Some? ==> r.value in rows.Values && r.value.googleId == Some(googleId)
      ensures r.None? ==> forall u :: u in rows.Values ==> u.googleId != Some(googleId)
    {
      if exists id :: id in rows && rows[id].googleId == Some(googleId) then
        var id :| id in rows && rows[id].googleId == Some(googleId);
        Some(rows[id])
      else None
    }

    /** `User.findById`: the public columns of the row with that id; the password hash
        and the Google id are not among them. */
    function FindById(id: nat): (r: Option<UserView>)
      reads this
      requires Valid()
      ensures r.Some? <==> id in rows
      ensures r.Some? ==> r.value.id == id && r.value.username == rows[id].username
                          && r.value.email == rows[id].email && r.value.profilePicture == rows[id].profilePicture
                          && r.value.authType == rows[id].authType && r.value.createdAt == rows[id].createdAt
    {
      if id in rows then Some(Project(rows[id])) else None
    }

    /** `User.updateGoogleInfo`: set Google id, picture and `auth_type = 'google'` on the
        row, then re-read it with `findById`. Its one caller passes a Google id no row holds. */
    method UpdateGoogleInfo(userId: nat, googleId: string, picture: Option<string>)
      returns (r: Option<UserView>)
      requires Valid()
      requires !GoogleIdTaken(rows, googleId)
      modifies this
      ensures Valid() && lastId == old(lastId)
      ensures rows == if userId in old(rows) then old(rows)[userId := LinkGoogle(old(rows)[userId], googleId, picture)]
                      else old(rows)
      ensures r == if userId in old(rows) then Some(Project(rows[userId])) else None
    {
      if userId in rows {
        rows := rows[userId := LinkGoogle(rows[userId], googleId, picture)];
      }
      r := FindById(userId);
    }

    /** `User.findOrCreateGoogleUser`. Without an email the sign-in fails. Otherwise: the
        row already holding this Google id is returned untouched; failing that, the row
        with this email is linked to the Google id; failing that, a new Google account is
        inserted under the display name (rejected if that username is in use). */
    method FindOrCreateGoogleUser(profile: GoogleProfile, now: int) returns (r: Result<GoogleUser, UserError>)
      requires Valid()
      modifies this
      ensures Valid()
      ensures var email, picture := FirstValue(profile.emails), FirstValue(profile.photos);
        if !Provided(email) then
          r == Err(EmailRequired) && rows == old(rows) && lastId == old(lastId)
        else if GoogleIdTaken(old(rows), profile.id) then
          && r.Ok? && r.value.Existing?
          && r.value.user in old(rows).Values && r.value.user.googleId == Some(profile.id)
          && rows == old(rows) && lastId == old(lastId)
        else if EmailTaken(old(rows), email.value) then
          exists id :: id in old(rows) && old(rows)[id].email == email.value
            && rows == old(rows)[id := LinkGoogle(old(rows)[id], profile.id, picture)]
            && lastId == old(lastId)
            && r == Ok(Linked(Project(rows[id])))
        else if UsernameTaken(old(rows), profile.displayName) then
          r == Err(Constraint(UniqueViolation("users.username"))) && rows == old(rows) && lastId == old(lastId)
        else
          && lastId == old(lastId) + 1 && lastId !in old(rows)
          && rows == old(rows)[lastId := User(lastId, profile.displayName, email.value, None,
                                              Some(profile.id), picture, "google", now)]
          && r == Ok(Inserted(lastId, profile.displayName, email.value, profile.id, picture, "google"))
      ensures r.Ok? ==> r.value.Id() in rows && rows[r.value.Id()].googleId == Some(profile.id)
    {
      var email, picture := FirstValue(profile.emails), FirstValue(profile.photos);
      if !Provided(email) {
        return Err(EmailRequired);
      }
      var existing := FindByGoogleId(profile.id);
      if existing.Some? {
        return Ok(Existing(existing.value));
      }
      var byEmail := FindByEmail(email.value);
      if byEmail.Some? {
        var id := byEmail.value.id;
        var view := UpdateGoogleInfo(id, profile.id, picture);
        return Ok(Linked(view.value));
      }
      if exists id :: id in rows && rows[id].username == profile.displayName {
        return Err(Constraint(UniqueViolation("users.username")));
      }
      lastId := lastId + 1;
      rows := rows[lastId := User(lastId, profile.displayName, email.value, None,
                                  Some(profile.id), picture, "google", now)];
      r := Ok(Inserted(lastId, profile.displayName, email.value, profile.id, picture, "google"));
    }

    /** Signing in twice with one profile: the second call finds the account the first
        resolved to, returns the same user id and changes nothing. */
    method SignInTwice(profile: GoogleProfile, now: int, later: int)
      returns (first: Result<GoogleUser, UserError>, second: Result<GoogleUser, UserError>,
               ghost between: map<nat, User>, ghost lastBetween: nat)
      requires Valid()
      modifies this
      ensures Valid()
      ensures first.Ok? ==> second.Ok? && second.value.Existing? && second.value.Id() == first.value.Id()
      ensures first.Ok? ==> rows == between && lastId == lastBetween
    {
      first := FindOrCreateGoogleUser(profile, now);
      between, lastBetween := rows, lastId;
      second := FindOrCreateGoogleUser(profile, later);
      if first.Ok? {
        var u := rows[first.value.Id()];
        assert u.googleId == Some(profile.id);
        assert u == second.value.user;
      }
    }
  }
}
