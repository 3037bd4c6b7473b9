/**
 * PostsController: turning the `page`, `limit` and `userId` query strings
 * into the call the feed endpoints make, and the requester id the delete
 * endpoint passes on.
 */
module PostsController {
  import opened Common
  import opened JsNumbers

  /** `PaginationDto` as the controller builds it; None in a field is NaN. */
  datatype Pagination = Pagination(page: Option<int>, limit: Option<int>)

  /** The service call a feed request turns into. */
  datatype FeedCall =
    | FindAllCall(options: Pagination)
    | FindByUserIdCall(userId: string, options: Pagination)
    | FindHotPostsCall(options: Pagination)

  /** The service call `delete` makes: the path id and the authenticated requester's id. */
  datatype DeleteCall = DeleteCall(id: string, userId: string)

  /** `value ? parseInt(value, 10) : default`: absent or empty falls back, anything else is parsed. */
  function ParseOr(value: Option<string>, default: int): (n: Option<int>)
    ensures !Truthy(value) ==> n == Some(default)
    ensures Truthy(value) ==> n == ParseInt(value.value)
  {
    if Truthy(value) then ParseInt(value.value) else Some(default)
  }

  /** The page and limit of a feed request: 1 and 10 unless given. */
  function Options(page: Option<string>, limit: Option<string>): (p: Pagination)
    ensures !Truthy(page) ==> p.page == Some(1)
    ensures !Truthy(limit) ==> p.limit == Some(10)
    ensures Truthy(page) ==> p.page == ParseInt(page.value)
    ensures Truthy(limit) ==> p.limit == ParseInt(limit.value)
  {
    Pagination(ParseOr(page, 1), ParseOr(limit, 10))
  }

  /** `getAllPosts`: the posts of `userId` when it is a non-empty string, otherwise all posts. */
  function GetAllPosts(page: Option<string>, limit: Option<string>, userId: Option<string>): (call: FeedCall)
    ensures Truthy(userId) <==> call.FindByUserIdCall?
    ensures !Truthy(userId) <==> call.FindAllCall?
    ensures call.FindByUserIdCall? ==> call.userId == userId.value
    ensures call.options == Options(page, limit)
  {
    var options := Options(page, limit);
    if Truthy(userId) then FindByUserIdCall(userId.value, options) else FindAllCall(options)
  }

  /** `getHotPosts`: the same page and limit handed to `findHotPosts`. */
  function GetHotPosts(page: Option<string>, limit: Option<string>): (call: FeedCall)
    ensures call.FindHotPostsCall?
    ensures call.options == Options(page, limit)
  {
    FindHotPostsCall(Options(page, limit))
  }

  /**
   * `delete`: `ParseUUIDPipe` answers BadRequest for a path id that is not a
   * UUID, and the service is never called; otherwise the service receives
   * the path id and whoever the JWT authenticated, never a value from the
   * request body.
   */
  function Delete(id: string, requesterId: string, isUuid: string -> bool): (r: Outcome<DeleteCall>)
    ensures r.Ok? <==> isUuid(id)
    ensures !r.Ok? ==> r == BadRequest
    ensures r.Ok? ==> r.value.id == id && r.value.userId == requesterId
  {
    if isUuid(id) then Ok(DeleteCall(id, requesterId)) else BadRequest
  }

  /** A request without query parameters asks for the first page of ten. */
  lemma DefaultFeed()
    ensures GetAllPosts(None, None, None) == FindAllCall(Pagination(Some(1), Some(10)))
    ensures GetAllPosts(Some(""), Some(""), Some("")) == FindAllCall(Pagination(Some(1), Some(10)))
    ensures GetHotPosts(None, None) == FindHotPostsCall(Pagination(Some(1), Some(10)))
  {
  }

  /** Page and limit written in decimal reach the service as those numbers. */
  lemma DecimalOptionsRoundTrip(page: nat, limit: nat)
    ensures Options(Some(DecimalString(page)), Some(DecimalString(limit))) == Pagination(Some(page), Some(limit))
  {
    ParseDecimal(page, "");
    ParseDecimal(limit, "");
    assert DecimalString(page) + "" == DecimalString(page);
    assert DecimalString(limit) + "" == DecimalString(limit);
  }

  /** A present but non-numeric value is not defaulted: it becomes NaN. */
  lemma NonNumericIsNaN()
    ensures Options(Some("abc"), Some("x")) == Pagination(None, None)
  {
    NoLeadingDigitIsNaN("abc");
    NoLeadingDigitIsNaN("x");
  }
}
