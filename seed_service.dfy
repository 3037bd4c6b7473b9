/**
 * SeedService: the admin account created at start-up, named by the
 * `ADMIN_USERNAME` and `ADMIN_PASSWORD` environment variables.
 */
module SeedService {
  import opened Common
  import opened Store

  /** The two environment variables; None when unset. */
  datatype SeedConfig = SeedConfig(adminUsername: Option<string>, adminPassword: Option<string>)

  /** `ADMIN_USERNAME || 'admin'`. */
  function AdminUsername(cfg: SeedConfig): (name: string)
    ensures Truthy(cfg.adminUsername) ==> name == cfg.adminUsername.value
    ensures !Truthy(cfg.adminUsername) ==> name == "admin"
    ensures name != ""
  {
    OrElse(cfg.adminUsername, "admin")
  }

  /** `ADMIN_PASSWORD || 'admin123'`. */
  function AdminPassword(cfg: SeedConfig): (password: string)
    ensures Truthy(cfg.adminPassword) ==> password == cfg.adminPassword.value
    ensures !Truthy(cfg.adminPassword) ==> password == "admin123"
    ensures password != ""
  {
    OrElse(cfg.adminPassword, "admin123")
  }

  /**
   * The users table after seeding: unchanged when any user already has the
   * name (admin or not), otherwise with one new active admin under `newId`.
   */
  function Seeded(users: map<Id, User>, name: string, passwordHash: string, newId: Id): (r: map<Id, User>)
    requires newId !in users
    ensures HasUsername(r, name)
    ensures HasUsername(users, name) ==> r == users
    ensures !HasUsername(users, name) ==>
      && r.Keys == users.Keys + {newId}
      && r[newId] == User(newId, name, passwordHash, RoleAdmin, true)
      && forall k :: k in users ==> r[k] == users[k]
  {
    if HasUsername(users, name) then users
    else
      var r := users[newId := User(newId, name, passwordHash, RoleAdmin, true)];
      assert r[newId].username == name;
      r
  }

  /** `seedAdminUser`: looks the name up and inserts the admin only when it is free. */
  method SeedAdminUser(db: Database, hash: string -> string, cfg: SeedConfig, newId: Id)
    requires db.Valid() && newId !in db.users
    modifies db`users
    ensures db.Valid()
    ensures db.users == Seeded(old(db.users), AdminUsername(cfg), hash(AdminPassword(cfg)), newId)
  {
    var adminUsername := AdminUsername(cfg);
    var adminPassword := AdminPassword(cfg);
    var existingAdmin: Option<User> := None;
    if k :| k in db.users && db.users[k].username == adminUsername {
      existingAdmin := Some(db.users[k]);
    }
    if existingAdmin.Some? {
      return;
    }
    var admin := User(newId, adminUsername, hash(adminPassword), RoleAdmin, true);
    db.users := db.users[newId := admin];
  }

  /** Seeding a second time, under any fresh id, leaves the table as the first seeding left it. */
  lemma SeedIdempotent(users: map<Id, User>, name: string, passwordHash: string, id1: Id, id2: Id)
    requires id1 !in users && id2 !in Seeded(users, name, passwordHash, id1)
    ensures Seeded(Seeded(users, name, passwordHash, id1), name, passwordHash, id2) ==
      Seeded(users, name, passwordHash, id1)
  {
  }

  /** Seeding keeps the usernames of the table unique. */
  lemma SeedKeepsUnique(users: map<Id, User>, name: string, passwordHash: string, newId: Id)
    requires newId !in users && UniqueUsernames(users)
    ensures UniqueUsernames(Seeded(users, name, passwordHash, newId))
  {
    var r := Seeded(users, name, passwordHash, newId);
    if !HasUsername(users, name) {
      forall a, b | a in r && b in r && r[a].username == r[b].username
        ensures a == b
      {
        if a != newId && b != newId {
          assert users[a].username == users[b].username;
        }
      }
    }
  }
}
