/**
 * CommentsService: creating, updating and deleting comments, and the
 * lookups by id, by owner and by post.
 */
module CommentsService {
  import opened Common
  import opened Store
  import opened CommentDtos

  /** `create`: NotFound unless the owner exists; the post is not checked. */
  method Create(db: Database, dto: CreateCommentDto, newId: Id, now: nat) returns (r: Outcome<Comment>)
    requires db.Valid() && newId !in db.comments
    modifies db`comments
    ensures db.Valid()
    ensures dto.userId !in db.users ==> r == NotFound && db.comments == old(db.comments)
    ensures dto.userId in db.users ==>
      && r == Ok(Comment(newId, dto.content, dto.userId, dto.postId, now))
      && db.comments == old(db.comments)[newId := r.value]
  {
    var userExists := dto.userId in db.users;
    if !userExists {
      return NotFound;
    }
    var comment := Comment(newId, dto.content, dto.userId, dto.postId, now);
    db.comments := db.comments[newId := comment];
    r := Ok(comment);
  }

  /** `findById`. */
  function FindById(comments: map<Id, Comment>, id: Id): (r: Option<Comment>)
    requires CommentsKeyed(comments)
    ensures r.Some? <==> id in comments
    ensures r.Some? ==> r.value == comments[id] && r.value.id == id
  {
    if id in comments then Some(comments[id]) else None
  }

  /** `findByUserId`: the comments owned by `userId`, in no particular order. */
  function FindByUserId(comments: map<Id, Comment>, userId: Id): (r: set<Comment>)
    ensures forall c :: c in r ==> c.userId == userId
    ensures forall k :: k in comments && comments[k].userId == userId ==> comments[k] in r
    ensures r <= comments.Values
  {
    set k | k in comments && comments[k].userId == userId :: comments[k]
  }

  /** `findByPostId`: the comments attached to `postId`, in no particular order. */
  function FindByPostId(comments: map<Id, Comment>, postId: Id): (r: set<Comment>)
    ensures forall c :: c in r ==> c.postId == postId
    ensures forall k :: k in comments && comments[k].postId == postId ==> comments[k] in r
    ensures r <= comments.Values
  {
    set k | k in comments && comments[k].postId == postId :: comments[k]
  }

  /** A post's comments as `findByPostId` returns them are as many as its feed entry counts. */
  lemma FindByPostIdCounted(comments: map<Id, Comment>, postId: Id)
    requires CommentsKeyed(comments)
    ensures |FindByPostId(comments, postId)| == CommentCount(comments, postId)
  {
    var ks := set k | k in comments && comments[k].postId == postId;
    var cs := FindByPostId(comments, postId);
    var ids := set c | c in cs :: c.id;
    assert ids == ks;
    CardinalityOfIds(cs);
  }

  /** Rows with distinct ids: a set of them is as large as the set of its ids. */
  lemma {:induction false} CardinalityOfIds(cs: set<Comment>)
    requires forall a, b :: a in cs && b in cs && a.id == b.id ==> a == b
    ensures |set c | c in cs :: c.id| == |cs|
    decreases cs
  {
    if cs != {} {
      var c :| c in cs;
      var rest := cs - {c};
      CardinalityOfIds(rest);
      assert (set x | x in cs :: x.id) == (set x | x in rest :: x.id) + {c.id};
      assert c.id !in (set x | x in rest :: x.id);
    }
  }

  /** The comment after `Object.assign(comment, updateCommentDto)`: content, post and owner overwritten. */
  function Assigned(c: Comment, dto: UpdateCommentDto): (d: Comment)
    ensures d.id == c.id && d.createdAt == c.createdAt
    ensures d.content == dto.content && d.postId == dto.postId && d.userId == dto.userId
  {
    c.(content := dto.content, postId := dto.postId, userId := dto.userId)
  }

  /** `update`: NotFound for an unknown id; otherwise every DTO field is written, with no ownership check. */
  method Update(db: Database, id: Id, dto: UpdateCommentDto) returns (r: Outcome<Comment>)
    requires db.Valid()
    modifies db`comments
    ensures db.Valid()
    ensures id !in old(db.comments) ==> r == NotFound && db.comments == old(db.comments)
    ensures id in old(db.comments) ==>
      && r == Ok(Assigned(old(db.comments)[id], dto))
      && db.comments == old(db.comments)[id := r.value]
  {
    var existing := FindById(db.comments, id);
    if existing.None? {
      return NotFound;
    }
    var comment := Assigned(existing.value, dto);
    db.comments := db.comments[id := comment];
    r := Ok(comment);
  }

  /** `delete`: removes the comment if it exists; no ownership check and no error. */
  method Delete(db: Database, id: Id)
    requires db.Valid()
    modifies db`comments
    ensures db.Valid()
    ensures db.comments == old(db.comments) - {id}
  {
    db.comments := db.comments - {id};
  }

  /** Adding a comment under a fresh id raises its post's comment count by one and no other. */
  lemma CreateCounts(comments: map<Id, Comment>, c: Comment, postId: Id)
    requires c.id !in comments
    ensures CommentCount(comments[c.id := c], postId) ==
      CommentCount(comments, postId) + (if c.postId == postId then 1 else 0)
  {
    var m := comments[c.id := c];
    var before := set k | k in comments && comments[k].postId == postId;
    var after := set k | k in m && m[k].postId == postId;
    if c.postId == postId {
      assert after == before + {c.id};
    } else {
      assert after == before;
    }
  }

  /** Deleting a comment lowers its post's count by one and leaves every other post's count alone. */
  lemma DeleteCounts(comments: map<Id, Comment>, id: Id, postId: Id)
    requires id in comments
    ensures CommentCount(comments - {id}, postId) ==
      CommentCount(comments, postId) - (if comments[id].postId == postId then 1 else 0)
  {
    var before := set k | k in comments && comments[k].postId == postId;
    var m := comments - {id};
    var after := set k | k in m && m[k].postId == postId;
    if comments[id].postId == postId {
      assert after == before - {id};
    } else {
      assert after == before;
    }
  }
}
