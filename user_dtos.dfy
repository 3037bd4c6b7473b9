/** The request bodies of the user endpoints and the values the service receives. */
module UserDtos {
  import opened Common
  import opened Store
  import opened ClassValidator

  /** What `UsersService.create` receives; it reads only username and password. */
  datatype CreateUserDto = CreateUserDto(username: string, password: string, role: Option<string>)

  /**
   * What `UsersService.update` receives: the requester id in `userId`, which
   * is optional and may be left out, and the optional fields to write. `role`
   * is typed as a role (see the README for role strings that name no role).
   */
  datatype UpdateUserDto = UpdateUserDto(
    userId: Option<Id>,
    username: Option<string>,
    password: Option<string>,
    isActive: Option<bool>,
    role: Option<UserRole>)

  const CreateUserSchema: seq<Property> := [
    Property("username", false, [IsNotEmpty, IsString]),
    Property("password", false, [IsNotEmpty, IsString]),
    Property("role", true, [IsEnum(["user", "admin"])])
  ]

  /** `userId` is declared without decorators, so it does not appear here. */
  const UpdateUserSchema: seq<Property> := [
    Property("username", true, [IsString]),
    Property("password", true, [IsString]),
    Property("isActive", true, [IsBoolean]),
    Property("role", true, [IsString])
  ]

  /** A non-empty string under `name`. */
  predicate NonEmptyString(b: Body, name: string) {
    name in b && b[name].JString? && b[name].s != ""
  }

  /** Absent, null, or any string. */
  predicate OptionalStringValue(b: Body, name: string) {
    name in b ==> b[name].JNull? || b[name].JString?
  }

  /** Absent, null, or a boolean. */
  predicate OptionalBoolean(b: Body, name: string) {
    name in b ==> b[name].JNull? || b[name].JBool?
  }

  /** Absent, null, 'user' or 'admin'. */
  predicate OptionalRoleName(b: Body, name: string) {
    name in b ==> b[name] in {JNull, JString("user"), JString("admin")}
  }

  /**
   * A body passes `CreateUserDto`: non-empty username and password strings,
   * and a role that is absent, null, 'user' or 'admin'.
   */
  function ValidCreateUser(b: Body): (ok: bool)
    ensures ok <==>
      && NonEmptyString(b, "username")
      && NonEmptyString(b, "password")
      && OptionalRoleName(b, "role")
  {
    var username, password, role := CreateUserSchema[0], CreateUserSchema[1], CreateUserSchema[2];
    var anyUuid := (_: string) => true;
    assert forall p :: p in CreateUserSchema ==> p == username || p == password || p == role;
    assert forall p :: p == username || p == password ==>
      (PropertyValid(p, b, anyUuid) <==> NonEmptyString(b, p.name)) by {
      forall p | p == username || p == password
        ensures PropertyValid(p, b, anyUuid) <==> NonEmptyString(b, p.name)
      {
        assert forall d :: d in p.decorators <==> d == IsNotEmpty || d == IsString;
        assert IsNotEmpty in p.decorators && IsString in p.decorators;
      }
    }
    assert PropertyValid(role, b, anyUuid) <==>
      OptionalRoleName(b, "role") by {
      assert forall d :: d in role.decorators <==> d == IsEnum(["user", "admin"]);
      assert IsEnum(["user", "admin"]) in role.decorators;
    }
    Validates(CreateUserSchema, b, anyUuid)
  }

  /**
   * A body passes `UpdateUserDto`: every property is optional; username,
   * password and role need only be strings (empty allowed, role not checked
   * against the role names), isActive a boolean. `userId` is never checked.
   */
  function ValidUpdateUser(b: Body): (ok: bool)
    ensures ok <==>
      && OptionalStringValue(b, "username")
      && OptionalStringValue(b, "password")
      && OptionalBoolean(b, "isActive")
      && OptionalStringValue(b, "role")
  {
    var anyUuid := (_: string) => true;
    assert forall p :: p in UpdateUserSchema ==>
      p == UpdateUserSchema[0] || p == UpdateUserSchema[1] || p == UpdateUserSchema[2] || p == UpdateUserSchema[3];
    forall p | p in UpdateUserSchema
      ensures PropertyValid(p, b, anyUuid) <==>
        (p.name in b ==> b[p.name].JNull? || Passes(p.decorators[0], Some(b[p.name]), anyUuid))
    {
      assert p.optional && |p.decorators| == 1;
      assert forall d :: d in p.decorators <==> d == p.decorators[0];
    }
    Validates(UpdateUserSchema, b, anyUuid)
  }

  /** The values `UsersService.create` receives from a validated body. */
  function CreateUserFromBody(b: Body): (dto: CreateUserDto)
    requires ValidCreateUser(b)
    ensures dto.username != "" && dto.password != ""
    ensures dto.role.Some? ==> dto.role.value == "user" || dto.role.value == "admin"
  {
    CreateUserDto(b["username"].s, b["password"].s, OptionalString(b, "role"))
  }

  /** Creation checks the role name; update accepts any string, such as 'superuser'. */
  lemma RoleNameCheckedOnlyAtCreation()
    ensures !ValidCreateUser(map["username" := JString("u"), "password" := JString("p"), "role" := JString("superuser")])
    ensures ValidUpdateUser(map["role" := JString("superuser")])
  {
  }

  /** Whatever the body carries under `userId`, validation of an update ignores it. */
  lemma UpdateIgnoresUserId(b: Body, v: Json)
    ensures ValidUpdateUser(b["userId" := v]) == ValidUpdateUser(b)
  {
  }
}
