/**
 * AuthService: signing in against a stored bcrypt hash and signing up a new
 * user, each answered with a signed JWT. `compare` stands for bcrypt's
 * `compareHash(password, hash)`, `sign` for `JwtService.signAsync`.
 */
module AuthService {
  import opened Common
  import opened Store
  import opened UserDtos
  import UsersService

  /** The JWT claims: `sub` is the user id. */
  datatype TokenPayload = TokenPayload(sub: Id, username: string)

  /**
   * `signIn`: NotFound when no user has the username, Unauthorized when the
   * password does not match the stored hash of the user found, otherwise the
   * token for that user. Only reads the store.
   */
  method SignIn(
    users: map<Id, User>, compare: (string, string) -> bool, sign: TokenPayload -> string,
    username: string, password: string)
    returns (r: Outcome<string>)
    requires UsersKeyed(users)
    ensures r == NotFound <==> !HasUsername(users, username)
    ensures r.NotFound? || r.Unauthorized? || r.Ok?
    ensures r == Unauthorized ==>
      exists k :: k in users && users[k].username == username && !compare(password, users[k].passwordHash)
    ensures r.Ok? ==>
      exists k :: k in users && users[k].username == username && compare(password, users[k].passwordHash) &&
        r.value == sign(TokenPayload(k, username))
  {
    var user := UsersService.FindByUsername(users, username);
    if user.None? {
      return NotFound;
    }
    var authorized := compare(password, user.value.passwordHash);
    if !authorized {
      return Unauthorized;
    }
    r := Ok(sign(TokenPayload(user.value.id, user.value.username)));
  }

  /** With unique usernames the outcome of signing in is determined by the one matching row. */
  method SignInUnique(
    users: map<Id, User>, compare: (string, string) -> bool, sign: TokenPayload -> string,
    username: string, password: string, k: Id)
    returns (r: Outcome<string>)
    requires UsersKeyed(users) && UniqueUsernames(users)
    requires k in users && users[k].username == username
    ensures compare(password, users[k].passwordHash) ==> r == Ok(sign(TokenPayload(k, username)))
    ensures !compare(password, users[k].passwordHash) ==> r == Unauthorized
  {
    r := SignIn(users, compare, sign, username, password);
  }

  /** Inserting a user whose username is not yet taken keeps usernames unique. */
  lemma FreshUsernameKeepsUnique(users: map<Id, User>, u: User)
    requires UniqueUsernames(users)
    requires u.id !in users && !HasUsername(users, u.username)
    ensures UniqueUsernames(users[u.id := u])
  {
    var m := users[u.id := u];
    forall a, b | a in m && b in m && m[a].username == m[b].username
      ensures a == b
    {
      if a != u.id && b != u.id {
        assert users[a].username == users[b].username;
      }
    }
  }

  /**
   * `signUp`: Conflict, with nothing written, when the username is taken;
   * otherwise `UsersService.create` adds exactly one regular user and the
   * token for it is returned. `create` always yields a user, so the
   * BadRequest branch is never taken.
   */
  method SignUp(
    db: Database, hash: string -> string, sign: TokenPayload -> string,
    username: string, password: string, newId: Id)
    returns (r: Outcome<string>)
    requires db.Valid() && newId !in db.users
    modifies db`users
    ensures db.Valid()
    ensures r != BadRequest
    ensures HasUsername(old(db.users), username) ==> r == Conflict && db.users == old(db.users)
    ensures !HasUsername(old(db.users), username) ==>
      && db.users == old(db.users)[newId := User(newId, username, hash(password), RoleUser, true)]
      && r == Ok(sign(TokenPayload(newId, username)))
    ensures UniqueUsernames(old(db.users)) ==> UniqueUsernames(db.users)
  {
    var userExists := UsersService.FindByUsername(db.users, username);
    if userExists.Some? {
      return Conflict;
    }
    var user := UsersService.Create(db, hash, CreateUserDto(username, password, None), newId);
    if UniqueUsernames(old(db.users)) {
      FreshUsernameKeepsUnique(old(db.users), user);
    }
    r := Ok(sign(TokenPayload(user.id, user.username)));
  }
}
