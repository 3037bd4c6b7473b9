/**
 * The persisted entities and the database that holds them: one table per
 * entity, each a map from primary key to row.
 */
module Store {
  import opened Common

  /** `UserRole.USER` ('user') and `UserRole.ADMIN` ('admin'). */
  datatype UserRole = RoleUser | RoleAdmin

  /** A user row. Timestamps and the soft-delete column are not modelled. */
  datatype User = User(
    id: Id,
    username: string,
    passwordHash: string,
    role: UserRole,
    isActive: bool)

  /** A post row; `content` is nullable, `userId` is the owner. */
  datatype Post = Post(
    id: Id,
    title: string,
    content: Option<string>,
    userId: Id,
    createdAt: nat)

  /** A comment row, owned by `userId` and attached to `postId`. */
  datatype Comment = Comment(
    id: Id,
    content: string,
    userId: Id,
    postId: Id,
    createdAt: nat)

  /** Every row is stored under its own primary key. */
  predicate UsersKeyed(users: map<Id, User>) {
    forall k :: k in users ==> users[k].id == k
  }

  predicate PostsKeyed(posts: map<Id, Post>) {
    forall k :: k in posts ==> posts[k].id == k
  }

  predicate CommentsKeyed(comments: map<Id, Comment>) {
    forall k :: k in comments ==> comments[k].id == k
  }

  /** The three repositories the services share. */
  class Database {
    var users: map<Id, User>
    var posts: map<Id, Post>
    var comments: map<Id, Comment>

    ghost predicate Valid()
      reads this
    {
      UsersKeyed(users) && PostsKeyed(posts) && CommentsKeyed(comments)
    }

    /** A fresh database: three empty tables. */
    constructor()
      ensures Valid()
      ensures users == map[] && posts == map[] && comments == map[]
    {
      users := map[];
      posts := map[];
      comments := map[];
    }
  }

  /** The user `id` exists and has the admin role. */
  predicate IsAdmin(users: map<Id, User>, id: Id) {
    id in users && users[id].role == RoleAdmin
  }

  /** Some user row carries `username`. */
  predicate HasUsername(users: map<Id, User>, username: string) {
    exists k :: k in users && users[k].username == username
  }

  /** No two user rows share a username. */
  ghost predicate UniqueUsernames(users: map<Id, User>) {
    forall a, b :: a in users && b in users && users[a].username == users[b].username ==> a == b
  }

  /** The number of comment rows attached to `postId`. */
  function CommentCount(comments: map<Id, Comment>, postId: Id): nat {
    |set k | k in comments && comments[k].postId == postId|
  }
}
