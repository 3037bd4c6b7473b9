/** The request bodies of the post endpoints and the values the service receives. */
module PostDtos {
  import opened Common
  import opened ClassValidator

  /** What `PostsService.create` reads from a validated body. */
  datatype CreatePostDto = CreatePostDto(title: string, content: Option<string>, userId: Id)

  /** What `PostsService.update` assigns: only the properties the body supplies. */
  datatype UpdatePostDto = UpdatePostDto(title: Option<string>, content: Option<string>)

  const TitleProperty := Property("title", false, [IsNotEmpty, IsString, MinLength(1), MaxLength(200)])
  const ContentProperty := Property("content", true, [IsString, MaxLength(5000)])
  const UserIdProperty := Property("userId", false, [IsNotEmpty, IsUuid])
  const OptionalTitleProperty := Property("title", true, [IsString, MinLength(1), MaxLength(200)])

  const CreatePostSchema: seq<Property> := [TitleProperty, ContentProperty, UserIdProperty]
  const UpdatePostSchema: seq<Property> := [OptionalTitleProperty, ContentProperty]

  lemma TitlePropertyMeaning(b: Body, isUuid: string -> bool)
    ensures PropertyValid(TitleProperty, b, isUuid) <==> StringIn(b, "title", 1, 200)
  {
    var ds := TitleProperty.decorators;
    assert forall d :: d in ds <==> d == IsNotEmpty || d == IsString || d == MinLength(1) || d == MaxLength(200);
    assert IsNotEmpty in ds && IsString in ds && MinLength(1) in ds && MaxLength(200) in ds;
  }

  lemma OptionalTitlePropertyMeaning(b: Body, isUuid: string -> bool)
    ensures PropertyValid(OptionalTitleProperty, b, isUuid) <==>
      ("title" in b ==> b["title"].JNull? || StringIn(b, "title", 1, 200))
  {
    var ds := OptionalTitleProperty.decorators;
    assert forall d :: d in ds <==> d == IsString || d == MinLength(1) || d == MaxLength(200);
    assert IsString in ds && MinLength(1) in ds && MaxLength(200) in ds;
  }

  lemma ContentPropertyMeaning(b: Body, isUuid: string -> bool)
    ensures PropertyValid(ContentProperty, b, isUuid) <==> OptionalStringUpTo(b, "content", 5000)
  {
    var ds := ContentProperty.decorators;
    assert forall d :: d in ds <==> d == IsString || d == MaxLength(5000);
    assert IsString in ds && MaxLength(5000) in ds;
  }

  /**
   * A body passes `CreatePostDto`: a title of 1 to 200 characters, content
   * absent, null or a string of at most 5000 characters (empty allowed), and a
   * non-empty UUID `userId`.
   */
  function ValidCreatePost(b: Body, isUuid: string -> bool): (ok: bool)
    ensures ok <==>
      && StringIn(b, "title", 1, 200)
      && OptionalStringUpTo(b, "content", 5000)
      && UuidAt(b, "userId", isUuid)
  {
    ValidatesEach(CreatePostSchema, b, isUuid);
    TitlePropertyMeaning(b, isUuid);
    ContentPropertyMeaning(b, isUuid);
    RequiredUuidMeaning("userId", b, isUuid);
    Validates(CreatePostSchema, b, isUuid)
  }

  /**
   * A body passes `UpdatePostDto`: each of title and content may be absent or
   * null; a present title has 1 to 200 characters, present content at most
   * 5000. The empty body is valid.
   */
  function ValidUpdatePost(b: Body): (ok: bool)
    ensures ok <==>
      && ("title" in b ==> b["title"].JNull? || StringIn(b, "title", 1, 200))
      && OptionalStringUpTo(b, "content", 5000)
  {
    var anyUuid := (_: string) => true;
    ValidatesEach(UpdatePostSchema, b, anyUuid);
    OptionalTitlePropertyMeaning(b, anyUuid);
    ContentPropertyMeaning(b, anyUuid);
    Validates(UpdatePostSchema, b, anyUuid)
  }

  /** The values `PostsService.create` destructures from a validated body. */
  function CreatePostFromBody(b: Body, isUuid: string -> bool): (dto: CreatePostDto)
    requires ValidCreatePost(b, isUuid)
    ensures 1 <= |dto.title| <= 200
    ensures dto.content.Some? ==> |dto.content.value| <= 5000
    ensures dto.userId != "" && isUuid(dto.userId)
  {
    CreatePostDto(b["title"].s, OptionalString(b, "content"), b["userId"].s)
  }

  /** The properties `Object.assign` copies from a validated update body. */
  function UpdatePostFromBody(b: Body): (dto: UpdatePostDto)
    requires ValidUpdatePost(b)
    ensures dto.title.Some? ==> 1 <= |dto.title.value| <= 200
    ensures dto.content.Some? ==> |dto.content.value| <= 5000
  {
    UpdatePostDto(OptionalString(b, "title"), OptionalString(b, "content"))
  }

  /** The empty update is valid and changes nothing. */
  lemma EmptyUpdateIsValid()
    ensures ValidUpdatePost(map[])
    ensures UpdatePostFromBody(map[]) == UpdatePostDto(None, None)
  {
  }

  /** Validation of an update looks at title and content only: other properties never fail it. */
  lemma UpdateIgnoresUndeclared(b: Body, name: string, v: Json)
    requires name != "title" && name != "content"
    ensures ValidUpdatePost(b[name := v]) == ValidUpdatePost(b)
  {
  }
}
