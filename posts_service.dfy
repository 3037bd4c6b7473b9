/**
 * PostsService: creating, updating and deleting posts, and the feed queries
 * (newest first, one page at a time, each post with its comment count).
 */
module PostsService {
  import opened Common
  import opened Store
  import opened Recency
  import opened PostDtos

  /** A feed entry: the post and `commentCount` from `loadRelationCountAndMap`. */
  datatype PostSummary = PostSummary(post: Post, commentCount: nat)

  /** `findById`: the post with its comments, newest first. */
  datatype PostDetail = PostDetail(post: Post, comments: seq<Comment>)

  function PostCreatedAt(p: Post): nat { p.createdAt }

  function CommentCreatedAt(c: Comment): nat { c.createdAt }

  /** The keys of the posts owned by `userId` (`where user.id = :userId`). */
  function OwnedBy(posts: map<Id, Post>, userId: Id): (ks: set<Id>)
    ensures ks <= posts.Keys
    ensures forall k :: k in ks <==> k in posts && posts[k].userId == userId
  {
    set k | k in posts && posts[k].userId == userId
  }

  /** The keys of the comments attached to `postId`. */
  function AttachedTo(comments: map<Id, Comment>, postId: Id): (ks: set<Id>)
    ensures ks <= comments.Keys
    ensures forall k :: k in ks <==> k in comments && comments[k].postId == postId
  {
    set k | k in comments && comments[k].postId == postId
  }

  /** `(page - 1) * limit`. */
  function Offset(page: int, limit: int): nat
    requires page >= 1 && limit >= 1
  {
    (page - 1) * limit
  }

  /** The feed entries for the posts `ids`, in that order. */
  function Summaries(posts: map<Id, Post>, comments: map<Id, Comment>, ids: seq<Id>): (r: seq<PostSummary>)
    requires forall i :: 0 <= i < |ids| ==> ids[i] in posts
    ensures |r| == |ids|
    ensures forall i :: 0 <= i < |r| ==> r[i] == PostSummary(posts[ids[i]], CommentCount(comments, ids[i]))
  {
    seq(|ids|, i requires 0 <= i < |ids| => PostSummary(posts[ids[i]], CommentCount(comments, ids[i])))
  }

  /** The posts `ks` newest first, one page of them, with their comment counts. */
  ghost function Page(posts: map<Id, Post>, comments: map<Id, Comment>, ks: set<Id>, page: int, limit: int)
    : (r: seq<PostSummary>)
    requires PostsKeyed(posts) && ks <= posts.Keys && page >= 1 && limit >= 1
    ensures |r| == if Offset(page, limit) >= |ks| then 0 else Min(limit, |ks| - Offset(page, limit))
    ensures forall i :: 0 <= i < |r| ==>
      && r[i].post.id in ks && r[i].post == posts[r[i].post.id]
      && r[i].commentCount == CommentCount(comments, r[i].post.id)
    ensures forall i, j :: 0 <= i < j < |r| ==> r[i].post.createdAt >= r[j].post.createdAt && r[i].post.id != r[j].post.id
    ensures exists o ::
      IsNewestFirst(posts, PostCreatedAt, ks, o) && r == Summaries(posts, comments, Window(o, Offset(page, limit), limit))
  {
    var o := NewestFirst(posts, PostCreatedAt, ks);
    var w := Window(o, Offset(page, limit), limit);
    var r := Summaries(posts, comments, w);
    assert forall i :: 0 <= i < |r| ==> r[i].post.id == w[i];
    r
  }

  /**
   * `findAll`: all posts newest first, skipping `(page - 1) * limit` and
   * returning at most `limit`, each with its comment count.
   */
  ghost function FindAll(posts: map<Id, Post>, comments: map<Id, Comment>, page: int, limit: int)
    : (r: seq<PostSummary>)
    requires PostsKeyed(posts) && page >= 1 && limit >= 1
    ensures |r| <= limit
    ensures |r| == if Offset(page, limit) >= |posts| then 0 else Min(limit, |posts| - Offset(page, limit))
    ensures forall i :: 0 <= i < |r| ==>
      && r[i].post.id in posts && r[i].post == posts[r[i].post.id]
      && r[i].commentCount == CommentCount(comments, r[i].post.id)
    ensures forall i, j :: 0 <= i < j < |r| ==> r[i].post.createdAt >= r[j].post.createdAt
    ensures exists o ::
      IsNewestFirst(posts, PostCreatedAt, posts.Keys, o) && r == Summaries(posts, comments, Window(o, Offset(page, limit), limit))
  {
    assert |posts.Keys| == |posts|;
    Page(posts, comments, posts.Keys, page, limit)
  }

  /** `findByUserId`: the same page, over the posts owned by `userId` only. */
  ghost function FindByUserId(posts: map<Id, Post>, comments: map<Id, Comment>, userId: Id, page: int, limit: int)
    : (r: seq<PostSummary>)
    requires PostsKeyed(posts) && page >= 1 && limit >= 1
    ensures |r| <= limit
    ensures |r| == if Offset(page, limit) >= |OwnedBy(posts, userId)| then 0
                   else Min(limit, |OwnedBy(posts, userId)| - Offset(page, limit))
    ensures forall i :: 0 <= i < |r| ==>
      && r[i].post.userId == userId
      && r[i].post.id in posts && r[i].post == posts[r[i].post.id]
      && r[i].commentCount == CommentCount(comments, r[i].post.id)
    ensures forall i, j :: 0 <= i < j < |r| ==> r[i].post.createdAt >= r[j].post.createdAt
    ensures exists o ::
      IsNewestFirst(posts, PostCreatedAt, OwnedBy(posts, userId), o) && r == Summaries(posts, comments, Window(o, Offset(page, limit), limit))
  {
    Page(posts, comments, OwnedBy(posts, userId), page, limit)
  }

  /** Two consecutive pages never share a post. */
  lemma {:induction false} PagesDisjoint(posts: map<Id, Post>, o: seq<Id>, page: int, limit: int, i: nat, j: nat)
    requires PostsKeyed(posts) && page >= 1 && limit >= 1
    requires IsNewestFirst(posts, PostCreatedAt, posts.Keys, o)
    requires i < |Window(o, Offset(page, limit), limit)| && j < |Window(o, Offset(page + 1, limit), limit)|
    ensures Window(o, Offset(page, limit), limit)[i] != Window(o, Offset(page + 1, limit), limit)[j]
  {
    var a, b := Offset(page, limit) + i, Offset(page + 1, limit) + j;
    assert Offset(page + 1, limit) == Offset(page, limit) + limit;
    assert a < b;
  }

  /**
   * `findById`: the post and every comment attached to it, newest first;
   * none for an unknown id.
   */
  ghost function FindById(posts: map<Id, Post>, comments: map<Id, Comment>, id: Id): (r: Option<PostDetail>)
    requires PostsKeyed(posts) && CommentsKeyed(comments)
    ensures r.Some? <==> id in posts
    ensures r.Some? ==> r.value.post == posts[id]
    ensures r.Some? ==> forall c :: c in r.value.comments <==> c in comments.Values && c.postId == id
    ensures r.Some? ==> |r.value.comments| == CommentCount(comments, id)
    ensures r.Some? ==> forall i, j :: 0 <= i < j < |r.value.comments| ==>
      r.value.comments[i].createdAt >= r.value.comments[j].createdAt
  {
    if id !in posts then None
    else
      var ks := AttachedTo(comments, id);
      var o := NewestFirst(comments, CommentCreatedAt, ks);
      var cs := seq(|o|, i requires 0 <= i < |o| => comments[o[i]]);
      assert forall c :: c in comments.Values && c.postId == id ==> c in cs by {
        forall c | c in comments.Values && c.postId == id ensures c in cs {
          var k :| k in comments && comments[k] == c;
          assert k in ks;
          var i :| 0 <= i < |o| && o[i] == k;
          assert cs[i] == c;
        }
      }
      Some(PostDetail(posts[id], cs))
  }

  /** `create`: NotFound unless the owner exists; otherwise exactly one post is added. */
  method Create(db: Database, dto: CreatePostDto, newId: Id, now: nat) returns (r: Outcome<Post>)
    requires db.Valid() && newId !in db.posts
    modifies db`posts
    ensures db.Valid()
    ensures dto.userId !in db.users ==> r == NotFound && db.posts == old(db.posts)
    ensures dto.userId in db.users ==>
      && r == Ok(Post(newId, dto.title, dto.content, dto.userId, now))
      && db.posts == old(db.posts)[newId := r.value]
  {
    var userExists := dto.userId in db.users;
    if !userExists {
      return NotFound;
    }
    var post := Post(newId, dto.title, dto.content, dto.userId, now);
    db.posts := db.posts[newId := post];
    r := Ok(post);
  }

  /**
   * The post after `Object.assign(post, updatePostDto)` for a body that
   * carries only the declared properties: a supplied title or content
   * overwrites, and the columns the body does not name keep their values.
   */
  function Assigned(p: Post, dto: UpdatePostDto): (q: Post)
    ensures q.id == p.id && q.userId == p.userId && q.createdAt == p.createdAt
    ensures q.title == dto.title.GetOr(p.title)
    ensures q.content == if dto.content.Some? then dto.content else p.content
  {
    p.(title := dto.title.GetOr(p.title),
       content := if dto.content.Some? then dto.content else p.content)
  }

  /**
   * `update`: NotFound for an unknown id; otherwise the post is assigned
   * (for a body with only title and content) and saved, with no ownership
   * check.
   */
  method Update(db: Database, id: Id, dto: UpdatePostDto) returns (r: Outcome<Post>)
    requires db.Valid()
    modifies db`posts
    ensures db.Valid()
    ensures id !in old(db.posts) ==> r == NotFound && db.posts == old(db.posts)
    ensures id in old(db.posts) ==>
      && r == Ok(Assigned(old(db.posts)[id], dto))
      && db.posts == old(db.posts)[id := r.value]
  {
    if id !in db.posts {
      return NotFound;
    }
    var post := Assigned(db.posts[id], dto);
    db.posts := db.posts[id := post];
    r := Ok(post);
  }

  /** Whether `requesterId` may delete the post `id`: its owner, or an admin. */
  predicate MayDelete(users: map<Id, User>, posts: map<Id, Post>, id: Id, requesterId: Id)
    requires id in posts
  {
    requesterId in users && (posts[id].userId == requesterId || users[requesterId].role == RoleAdmin)
  }

  /**
   * `delete`: NotFound for an unknown post, and NotFound too (not Forbidden)
   * when the requester is missing or neither owner nor admin; otherwise
   * exactly that post is removed.
   */
  method Delete(db: Database, id: Id, requesterId: Id) returns (r: Outcome<()>)
    requires db.Valid()
    modifies db`posts
    ensures db.Valid()
    ensures r == Ok(()) <==> id in old(db.posts) && MayDelete(db.users, old(db.posts), id, requesterId)
    ensures r != Ok(()) ==> r == NotFound && db.posts == old(db.posts)
    ensures r == Ok(()) ==> db.posts == old(db.posts) - {id}
  {
    if id !in db.posts {
      return NotFound;
    }
    var post := db.posts[id];
    if requesterId !in db.users || (post.userId != requesterId && db.users[requesterId].role != RoleAdmin) {
      return NotFound;
    }
    db.posts := db.posts - {id};
    r := Ok(());
  }
}
