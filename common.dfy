/** Values shared by the server and the web client model. */
module Common {

  /** A value that may be absent: `undefined`/`null` in the source. */
  datatype Option<+T> = None | Some(value: T) {
    function GetOr(default: T): T {
      match this
      case Some(v) => v
      case None => default
    }
  }

  /** Primary keys are opaque strings (UUIDs generated by the database). */
  type Id = string

  /**
   * The result of a server operation: the value it resolves to, or the HTTP
   * exception it throws (NotFoundException, ForbiddenException, ...).
   */
  datatype Outcome<+T> =
    | Ok(value: T)
    | NotFound
    | Forbidden
    | Conflict
    | Unauthorized
    | BadRequest

  /** JavaScript truthiness of a possibly missing string: present and not empty. */
  predicate Truthy(s: Option<string>) {
    s.Some? && s.value != ""
  }

  /** `s || d` in JavaScript for a possibly missing string. */
  function OrElse(s: Option<string>, d: string): (r: string)
    ensures Truthy(s) ==> r == s.value
    ensures !Truthy(s) ==> r == d
  {
    if Truthy(s) then s.value else d
  }

  /** `s.startsWith(prefix)` in JavaScript. */
  predicate StartsWith(s: string, prefix: string) {
    |prefix| <= |s| && s[..|prefix|] == prefix
  }
}
