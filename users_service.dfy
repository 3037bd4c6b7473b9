/**
 * UsersService: creating users, looking them up, and the role and ownership
 * rules of update and delete. `hash` stands for bcrypt's `hashPassword`.
 */
module UsersService {
  import opened Common
  import opened Store
  import opened UserDtos

  /** `create`: saves a new regular, active user; the DTO's role is ignored and usernames are not checked. */
  method Create(db: Database, hash: string -> string, dto: CreateUserDto, newId: Id) returns (user: User)
    requires db.Valid() && newId !in db.users
    modifies db`users
    ensures db.Valid()
    ensures user == User(newId, dto.username, hash(dto.password), RoleUser, true)
    ensures db.users == old(db.users)[newId := user]
  {
    user := User(newId, dto.username, hash(dto.password), RoleUser, true);
    db.users := db.users[newId := user];
  }

  /** `findById`. */
  function FindById(users: map<Id, User>, id: Id): (r: Option<User>)
    requires UsersKeyed(users)
    ensures r.Some? <==> id in users
    ensures r.Some? ==> r.value == users[id] && r.value.id == id
  {
    if id in users then Some(users[id]) else None
  }

  /**
   * `findByUsername`: some row with that username, or none when no row has
   * it. Usernames are not unique in the table, and which of several matching
   * rows the database returns is its own choice.
   */
  method FindByUsername(users: map<Id, User>, username: string) returns (r: Option<User>)
    requires UsersKeyed(users)
    ensures r.None? <==> !HasUsername(users, username)
    ensures r.Some? ==> r.value.id in users && users[r.value.id] == r.value && r.value.username == username
  {
    if k :| k in users && users[k].username == username {
      r := Some(users[k]);
    } else {
      r := None;
    }
  }

  /**
   * The id `findOneBy({ id: updateData.userId })` looks up. With `userId`
   * given it is that id. Without it, TypeORM drops the undefined condition and
   * returns whatever row the unconditioned query yields; `anyRow` is that
   * row's id, None for an empty table, and the model leaves it open.
   */
  function RequesterId(dto: UpdateUserDto, anyRow: Option<Id>): (k: Option<Id>)
    ensures dto.userId.Some? ==> k == dto.userId
    ensures dto.userId.None? ==> k == anyRow
  {
    if dto.userId.Some? then dto.userId else anyRow
  }

  /** Whether the looked-up requester exists and is an admin (`requestingUser?.role === ADMIN`). */
  predicate RequesterIsAdmin(users: map<Id, User>, dto: UpdateUserDto, anyRow: Option<Id>) {
    var k := RequesterId(dto, anyRow);
    k.Some? && IsAdmin(users, k.value)
  }

  /**
   * The four refusals of `update` for an existing target, each a
   * ForbiddenException:
   * an admin target needs an admin requester; someone else's profile needs an
   * admin requester; a role change needs an admin requester; an admin can
   * never be deactivated, not even by an admin.
   */
  predicate UpdateRefused(users: map<Id, User>, id: Id, dto: UpdateUserDto, anyRow: Option<Id>)
    requires id in users
  {
    || (users[id].role == RoleAdmin && !RequesterIsAdmin(users, dto, anyRow))
    || (dto.userId != Some(id) && !RequesterIsAdmin(users, dto, anyRow))
    || (dto.role.Some? && !RequesterIsAdmin(users, dto, anyRow))
    || (dto.isActive == Some(false) && users[id].role == RoleAdmin)
  }

  /**
   * The row after `usersRepository.update(id, {...updateData})`: each field
   * the DTO supplies is written, a truthy password is stored as its hash, and
   * nothing else changes; the requester id is not a column.
   */
  function Patched(u: User, dto: UpdateUserDto, hash: string -> string): (v: User)
    ensures v.id == u.id
    ensures dto.username.Some? ==> v.username == dto.username.value
    ensures dto.username.None? ==> v.username == u.username
    ensures Truthy(dto.password) ==> v.passwordHash == hash(dto.password.value)
    ensures !Truthy(dto.password) ==> v.passwordHash == u.passwordHash
    ensures v.role == dto.role.GetOr(u.role)
    ensures v.isActive == dto.isActive.GetOr(u.isActive)
  {
    User(
      u.id,
      dto.username.GetOr(u.username),
      if Truthy(dto.password) then hash(dto.password.value) else u.passwordHash,
      dto.role.GetOr(u.role),
      dto.isActive.GetOr(u.isActive))
  }

  /**
   * `update`: null for a missing target; Forbidden, with nothing written, when
   * any rule refuses; otherwise exactly the target row is patched and the
   * re-read row is returned. `anyRow` is the row an update without `userId`
   * finds as its requester (see `RequesterId`).
   */
  method Update(db: Database, hash: string -> string, id: Id, dto: UpdateUserDto, anyRow: Option<Id>)
    returns (r: Outcome<Option<User>>)
    requires db.Valid()
    modifies db`users
    ensures db.Valid()
    ensures id !in old(db.users) ==> r == Ok(None) && db.users == old(db.users)
    ensures id in old(db.users) && UpdateRefused(old(db.users), id, dto, anyRow) ==>
      r == Forbidden && db.users == old(db.users)
    ensures id in old(db.users) && !UpdateRefused(old(db.users), id, dto, anyRow) ==>
      && db.users == old(db.users)[id := Patched(old(db.users)[id], dto, hash)]
      && r == Ok(Some(db.users[id]))
  {
    var existing := FindById(db.users, id);
    if existing.None? {
      return Ok(None);
    }
    var requesterId := RequesterId(dto, anyRow);
    var requester := if requesterId.Some? then FindById(db.users, requesterId.value) else None;
    var requesterIsAdmin := requester.Some? && requester.value.role == RoleAdmin;
    if existing.value.role == RoleAdmin && !requesterIsAdmin {
      return Forbidden;
    }
    if dto.userId != Some(id) && (requester.None? || requester.value.role != RoleAdmin) {
      return Forbidden;
    }
    if dto.role.Some? && !requesterIsAdmin {
      return Forbidden;
    }
    if dto.isActive == Some(false) && existing.value.role == RoleAdmin {
      return Forbidden;
    }
    db.users := db.users[id := Patched(existing.value, dto, hash)];
    var reread := FindById(db.users, id);
    r := Ok(reread);
  }

  /** An admin target is only ever updated by an admin requester, and never deactivated. */
  lemma AdminTargetNeedsAdmin(users: map<Id, User>, id: Id, dto: UpdateUserDto, anyRow: Option<Id>)
    requires id in users && users[id].role == RoleAdmin
    requires !UpdateRefused(users, id, dto, anyRow)
    ensures RequesterId(dto, anyRow).Some? && IsAdmin(users, RequesterId(dto, anyRow).value)
    ensures dto.isActive != Some(false)
  {
  }

  /**
   * As written: an update without `userId` acts with the authority of
   * whichever row the unconditioned lookup returns. When that row is an
   * admin, anyone's profile, an admin's included, is updated and its role
   * changed with no requester named.
   */
  lemma UpdateWithoutRequesterBypass(users: map<Id, User>, id: Id, dto: UpdateUserDto, admin: Id)
    requires id in users && dto.userId.None? && dto.isActive != Some(false)
    requires IsAdmin(users, admin)
    ensures !UpdateRefused(users, id, dto, Some(admin))
  {
  }

  /**
   * The evidently intended rule: an update names its requester, and one
   * without `userId` has none, as when the lookup finds no row.
   */
  predicate IntendedUpdateRefused(users: map<Id, User>, id: Id, dto: UpdateUserDto)
    requires id in users
  {
    UpdateRefused(users, id, dto, None)
  }

  /** Under the intended rule an update that names no requester is refused, whatever its target. */
  lemma UpdateWithoutRequesterRefused(users: map<Id, User>, id: Id, dto: UpdateUserDto)
    requires id in users && dto.userId.None?
    ensures IntendedUpdateRefused(users, id, dto)
  {
  }

  /** Where the requester is named, the intended rule and the source agree, whatever `anyRow` is. */
  lemma IntendedAgreesWhenNamed(users: map<Id, User>, id: Id, dto: UpdateUserDto, anyRow: Option<Id>)
    requires id in users && dto.userId.Some?
    ensures IntendedUpdateRefused(users, id, dto) <==> UpdateRefused(users, id, dto, anyRow)
  {
  }

  /** A regular user may update their own username, password and active flag. */
  lemma SelfUpdateAllowed(users: map<Id, User>, id: Id, dto: UpdateUserDto, anyRow: Option<Id>)
    requires id in users && users[id].role == RoleUser
    requires dto.userId == Some(id) && dto.role.None?
    ensures !UpdateRefused(users, id, dto, anyRow)
  {
  }

  /**
   * `delete`, with its checks in the source's order: missing target is
   * NotFound; missing requester, a requester who is neither the target nor an
   * admin, or an admin target are Forbidden. Only when all pass is exactly the
   * target removed.
   */
  method Delete(db: Database, id: Id, requesterId: Id) returns (r: Outcome<()>)
    requires db.Valid()
    modifies db`users
    ensures db.Valid()
    ensures id !in old(db.users) ==> r == NotFound
    ensures id in old(db.users) && requesterId !in old(db.users) ==> r == Forbidden
    ensures (id in old(db.users) && requesterId in old(db.users) && id != requesterId &&
             !IsAdmin(old(db.users), requesterId)) ==> r == Forbidden
    ensures id in old(db.users) && old(db.users)[id].role == RoleAdmin ==> r != Ok(())
    ensures id in old(db.users) && r != Ok(()) ==> r == Forbidden
    ensures r == Ok(()) <==>
      && id in old(db.users) && requesterId in old(db.users)
      && (id == requesterId || IsAdmin(old(db.users), requesterId))
      && old(db.users)[id].role == RoleUser
    ensures r == Ok(()) ==> db.users == old(db.users) - {id}
    ensures r != Ok(()) ==> db.users == old(db.users)
  {
    var existing := FindById(db.users, id);
    var requester := FindById(db.users, requesterId);
    if existing.None? {
      return NotFound;
    }
    if requester.None? {
      return Forbidden;
    }
    if existing.value.id != requesterId && requester.value.role != RoleAdmin {
      return Forbidden;
    }
    if existing.value.role == RoleAdmin {
      return Forbidden;
    }
    db.users := db.users - {id};
    r := Ok(());
  }
}
