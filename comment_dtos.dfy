/** The request bodies of the comment endpoints and the values the service receives. */
module CommentDtos {
  import opened Common
  import opened ClassValidator

  /** What `CommentsService.create` destructures from a validated body. */
  datatype CreateCommentDto = CreateCommentDto(content: string, userId: Id, postId: Id)

  /** What `CommentsService.update` copies onto the comment: every property is required. */
  datatype UpdateCommentDto = UpdateCommentDto(content: string, postId: Id, userId: Id)

  const ContentProperty := Property("content", false, [IsNotEmpty, IsString, MaxLength(5000)])
  const UserIdProperty := Property("userId", false, [IsNotEmpty, IsUuid])
  const PostIdProperty := Property("postId", false, [IsNotEmpty, IsUuid])

  const CreateCommentSchema: seq<Property> := [ContentProperty, UserIdProperty, PostIdProperty]
  const UpdateCommentSchema: seq<Property> := [ContentProperty, PostIdProperty, UserIdProperty]

  lemma ContentPropertyMeaning(b: Body, isUuid: string -> bool)
    ensures PropertyValid(ContentProperty, b, isUuid) <==> StringIn(b, "content", 1, 5000)
  {
    var ds := ContentProperty.decorators;
    assert forall d :: d in ds <==> d == IsNotEmpty || d == IsString || d == MaxLength(5000);
    assert IsNotEmpty in ds && IsString in ds && MaxLength(5000) in ds;
  }

  /**
   * A body passes `CreateCommentDto`: content of 1 to 5000 characters and
   * non-empty UUIDs for `userId` and `postId`.
   */
  function ValidCreateComment(b: Body, isUuid: string -> bool): (ok: bool)
    ensures ok <==>
      && StringIn(b, "content", 1, 5000)
      && UuidAt(b, "userId", isUuid)
      && UuidAt(b, "postId", isUuid)
  {
    assert forall p :: p in CreateCommentSchema ==> p == ContentProperty || p == UserIdProperty || p == PostIdProperty;
    ContentPropertyMeaning(b, isUuid);
    RequiredUuidMeaning("userId", b, isUuid);
    RequiredUuidMeaning("postId", b, isUuid);
    Validates(CreateCommentSchema, b, isUuid)
  }

  /**
   * A body passes `UpdateCommentDto`: unlike a post update nothing is
   * optional; content of 1 to 5000 characters and UUIDs for both ids.
   */
  function ValidUpdateComment(b: Body, isUuid: string -> bool): (ok: bool)
    ensures ok <==>
      && StringIn(b, "content", 1, 5000)
      && UuidAt(b, "postId", isUuid)
      && UuidAt(b, "userId", isUuid)
  {
    assert forall p :: p in UpdateCommentSchema ==> p == ContentProperty || p == UserIdProperty || p == PostIdProperty;
    ContentPropertyMeaning(b, isUuid);
    RequiredUuidMeaning("userId", b, isUuid);
    RequiredUuidMeaning("postId", b, isUuid);
    Validates(UpdateCommentSchema, b, isUuid)
  }

  function CreateCommentFromBody(b: Body, isUuid: string -> bool): (dto: CreateCommentDto)
    requires ValidCreateComment(b, isUuid)
    ensures 1 <= |dto.content| <= 5000
    ensures isUuid(dto.userId) && isUuid(dto.postId)
  {
    CreateCommentDto(b["content"].s, b["userId"].s, b["postId"].s)
  }

  function UpdateCommentFromBody(b: Body, isUuid: string -> bool): (dto: UpdateCommentDto)
    requires ValidUpdateComment(b, isUuid)
    ensures 1 <= |dto.content| <= 5000
    ensures isUuid(dto.userId) && isUuid(dto.postId)
  {
    UpdateCommentDto(b["content"].s, b["postId"].s, b["userId"].s)
  }

  /** An empty comment update is rejected, where an empty post update is accepted. */
  lemma EmptyUpdateIsInvalid(isUuid: string -> bool)
    ensures !ValidUpdateComment(map[], isUuid)
  {
  }
}
