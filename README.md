# Sayari in Dafny

Sayari is a small social posting service. It has a NestJS server, with users, posts and comments kept in PostgreSQL through TypeORM, and a Next.js web client. This project models the rules that decide what the two halves do and proves properties of them.

On the server side the model covers these parts:

- Role and ownership checks. Users are `user` or `admin`. Admins can never be deactivated or deleted. A profile is edited by its owner or by an admin.
- The create, update and delete lifecycle of users, posts and comments.
- The post feed: newest first, one page at a time, each post with its comment count.
- Signing in and signing up, each answered with a JWT.
- The admin account seeded at start-up.
- The class-validator request DTOs.
- How the posts controller turns the `page`, `limit` and `userId` query strings into a service call. This includes JavaScript's `parseInt`.

On the web client the model covers these parts:

- The `authReducer` state machine.
- The `useAuthGuard` hook.
- The Next.js route `middleware`.
- The client-side `RedirectHandler`.

The database is a `Database` class with one map per table, keyed by primary key. The services' writes are methods that reassign those maps. The queries are functions over snapshots of the maps.

Some outside functions appear as function-valued parameters:

- bcrypt hashing and comparison;
- JWT signing;
- the UUID test of `@IsUUID()`.

Fresh primary keys and `createdAt` timestamps are parameters too.

Modules, one file each:

| file | module | models |
|---|---|---|
| common.dfy | `Common` | Option, the server `Outcome` (a value or the HTTP exception thrown), JavaScript truthiness, `\|\|` and `startsWith` |
| store.dfy | `Store` | the `User`, `Post` and `Comment` rows and the `Database` holding them |
| class_validator.dfy | `ClassValidator` | the decorators the DTOs use, and when a body passes them |
| post_dtos.dfy, comment_dtos.dfy, user_dtos.dfy | `PostDtos`, `CommentDtos`, `UserDtos` | each DTO's validity, characterised field by field |
| recency.dfy | `Recency` | `ORDER BY createdAt DESC` and `OFFSET`/`LIMIT` |
| users_service.dfy, posts_service.dfy, comments_service.dfy, auth_service.dfy, seed_service.dfy | one per service | the services |
| js_numbers.dfy | `JsNumbers` | `parseInt(s, 10)` |
| posts_controller.dfy | `PostsController` | query parsing and dispatch |
| auth_context.dfy, auth_guard.dfy, middleware.dfy, redirect_handler.dfy | `AuthContext`, `AuthGuard`, `Middleware`, `RedirectHandler` | the web client |

## Model

| member | source | states |
|---|---|---|
| UsersService.Create | packages/server/src/users/users.service.ts:20-26 | exactly one user is added under the fresh id: the given username, `hash(password)`, role user, active. The DTO's role is ignored and the username is not checked for uniqueness |
| UsersService.FindById | packages/server/src/users/users.service.ts:65-67 | the user stored under the id, or none exactly when the id is unknown |
| UsersService.FindByUsername | packages/server/src/users/users.service.ts:69-71 | none exactly when no row has the username; otherwise a stored row with that username |
| UsersService.Patched | packages/server/src/users/users.service.ts:106-116 | each supplied field is written: username, role and isActive as given, and a truthy password as its hash. Every other column keeps its value and the id never changes |
| UsersService.Update | packages/server/src/users/users.service.ts:73-117 | an unknown target gives null and writes nothing. The requester is the row stored under `userId`. Without a `userId` it is whatever row the unconditioned lookup returns (`anyRow`), which may be none. When any of the four rules refuses, the result is Forbidden and nothing is written. The rules: an admin target needs an admin requester; another user's profile needs an admin requester; a role change needs an admin requester; an admin is never deactivated. Otherwise only the target row is patched, and the re-read row is returned |
| UsersService.AdminTargetNeedsAdmin | packages/server/src/users/users.service.ts:84-104 | an update of an admin that goes through had an existing admin requester and did not deactivate the target |
| UsersService.RequesterId | packages/server/src/users/users.service.ts:80-82 | the requester lookup goes by `userId` when one is given, and otherwise yields the row the unconditioned lookup returns |
| UsersService.UpdateWithoutRequesterBypass | packages/server/src/users/users.service.ts:80-96 | as written: when the unconditioned lookup returns an admin row, an update without `userId` that does not deactivate an admin is not refused, even one that changes another user's role |
| UsersService.UpdateWithoutRequesterRefused | packages/server/src/users/users.service.ts:80-96 | the intended rule: an update that names no requester is refused for every target, since it is nobody's own profile and there is no admin behind it |
| UsersService.IntendedAgreesWhenNamed | packages/server/src/users/users.service.ts:80-104 | when `userId` is given, the intended rules and the rules as written refuse exactly the same updates |
| UsersService.SelfUpdateAllowed | packages/server/src/users/users.service.ts:91-100 | a regular user updating their own profile without a role change is never refused |
| UsersService.Delete | packages/server/src/users/users.service.ts:119-145 | the checks run in the source's order. A missing target is NotFound. A missing requester is Forbidden, and so is a requester who is neither the target nor an admin. An admin target is never deleted: it is Forbidden. Success holds exactly when all checks pass, and then exactly the target is removed; otherwise nothing changes |
| Store.Database.constructor | packages/server/src/users/user.entity.ts:12-34 | the model's starting state: the user, post and comment tables are empty, and every row is keyed by its primary key |
| Recency.LatestExists | packages/server/src/posts/posts.service.ts:49-49 | every non-empty set of rows has one at least as recent as all the others |
| Recency.NewestFirst | packages/server/src/posts/posts.service.ts:49-49 | lists each of the given rows exactly once, with `createdAt` non-increasing. The tie order is left to the database |
| Recency.Window | packages/server/src/posts/posts.service.ts:50-51 | `skip(offset).take(limit)`: the rows from position `offset` on, at most `limit` of them, and none past the end |
| PostsService.Summaries | packages/server/src/posts/posts.service.ts:48-48 | one feed entry per listed post, in order, each carrying the number of comments attached to that post |
| PostsService.Page | packages/server/src/posts/posts.service.ts:41-52 | the page has the exact length the offset and limit allow. Each entry is a stored post from the set with its comment count. Entries are distinct and in non-increasing `createdAt` order, and the page is the window of some newest-first listing |
| PostsService.FindAll | packages/server/src/posts/posts.service.ts:39-55 | at most `limit` posts, skipping `(page - 1) * limit` of all posts newest first, each with its comment count, in non-increasing `createdAt` order |
| PostsService.OwnedBy | packages/server/src/posts/posts.service.ts:85-85 | exactly the posts whose owner is the given user |
| PostsService.FindByUserId | packages/server/src/posts/posts.service.ts:69-92 | the same page as `FindAll`, taken over only the posts owned by the user; every entry is owned by that user |
| PostsService.PagesDisjoint | packages/server/src/posts/posts.service.ts:41-51 | two consecutive pages of the same listing share no post |
| PostsService.FindById | packages/server/src/posts/posts.service.ts:57-67 | none exactly for an unknown id. Otherwise the stored post and exactly the comments attached to it, each once (as many as its comment count), newest first |
| PostsService.Create | packages/server/src/posts/posts.service.ts:19-37 | NotFound with the posts unchanged when the owner does not exist; otherwise exactly one post with the given title, content and owner is added |
| PostsService.Assigned | packages/server/src/posts/posts.service.ts:101-101 | for a body carrying only title and content: a supplied title or content overwrites, and id, owner and `createdAt`, which such a body does not name, keep their values |
| PostsService.Update | packages/server/src/posts/posts.service.ts:94-104 | NotFound for an unknown id. Otherwise only that post is replaced by its assigned version (for a body carrying only title and content), with no ownership check |
| PostsService.Delete | packages/server/src/posts/posts.service.ts:106-128 | success holds exactly when the post exists and the requester exists and is its owner or an admin. Every failure is NotFound, not Forbidden, and removes nothing. Success removes exactly that post |
| CommentsService.Create | packages/server/src/comments/comments.service.ts:19-37 | NotFound with the comments unchanged when the owner does not exist. Otherwise one comment with the given content, owner and post is added, and the post is not checked |
| CommentsService.FindById | packages/server/src/comments/comments.service.ts:39-50 | the comment stored under the id, or none exactly when the id is unknown |
| CommentsService.FindByUserId | packages/server/src/comments/comments.service.ts:52-58 | exactly the stored comments owned by the user |
| CommentsService.FindByPostId | packages/server/src/comments/comments.service.ts:60-73 | exactly the stored comments attached to the post |
| CommentsService.FindByPostIdCounted | packages/server/src/posts/posts.service.ts:48-48 | a post's comment count in the feed equals the number of comments `findByPostId` returns for it |
| CommentsService.Assigned | packages/server/src/comments/comments.service.ts:85-85 | content, post and owner are overwritten from the DTO; id and `createdAt` are kept |
| CommentsService.Update | packages/server/src/comments/comments.service.ts:75-88 | NotFound for an unknown id. Otherwise only that comment is replaced by its assigned version, with no ownership check |
| CommentsService.Delete | packages/server/src/comments/comments.service.ts:90-92 | the comment with that id is gone, all others are untouched, and no error is raised |
| CommentsService.CreateCounts | packages/server/src/comments/comments.service.ts:30-36 | a new comment raises its own post's comment count by one and no other post's count |
| CommentsService.DeleteCounts | packages/server/src/comments/comments.service.ts:90-92 | deleting a comment lowers its post's count by one and leaves every other count alone |
| AuthService.SignIn | packages/server/src/auth/auth.service.ts:19-39 | NotFound exactly when no user has the username. Unauthorized only when a user with that name fails the hash comparison. Ok only with the token signed for such a user's id and username when the comparison holds. The store is only read |
| AuthService.SignInUnique | packages/server/src/auth/auth.service.ts:23-38 | with unique usernames, the one matching row decides the outcome: its token when the password matches, Unauthorized otherwise |
| AuthService.FreshUsernameKeepsUnique | packages/server/src/auth/auth.service.ts:45-51 | adding a user under an unused username keeps usernames unique |
| AuthService.SignUp | packages/server/src/auth/auth.service.ts:41-61 | Conflict, with nothing written, when the username is taken. Otherwise exactly one regular, active user is added and the token for its id and username is returned. BadRequest never occurs, and unique usernames stay unique |
| SeedService.AdminUsername | packages/server/src/database/seeds/seed.service.ts:15-15 | the configured name when set and non-empty, otherwise 'admin' |
| SeedService.AdminPassword | packages/server/src/database/seeds/seed.service.ts:16-16 | the configured password when set and non-empty, otherwise 'admin123' |
| SeedService.Seeded | packages/server/src/database/seeds/seed.service.ts:18-32 | afterwards some user has the name. When any user (admin or not) already had it, nothing changes. Otherwise exactly one active admin with that name and password hash is added, and every other row is kept |
| SeedService.SeedAdminUser | packages/server/src/database/seeds/seed.service.ts:14-33 | the users table becomes the seeded table for the configured (or default) name and the hash of the configured (or default) password |
| SeedService.SeedIdempotent | packages/server/src/database/seeds/seed.service.ts:18-32 | seeding a second time leaves the table as the first seeding left it |
| SeedService.SeedKeepsUnique | packages/server/src/database/seeds/seed.service.ts:18-32 | seeding keeps usernames unique |
| JsNumbers.TrimStart | packages/server/src/posts/posts.controller.ts:41-42 | the result starts with no white space and is no longer than the input |
| JsNumbers.TrimStartDropsWhitespace | packages/server/src/posts/posts.controller.ts:41-42 | the result is a suffix of the input, and everything dropped is white space |
| JsNumbers.DigitPrefix | packages/server/src/posts/posts.controller.ts:41-42 | a run of decimal digits no longer than the input |
| JsNumbers.DigitPrefixIsLongest | packages/server/src/posts/posts.controller.ts:41-42 | the run is a prefix of the input and no digit follows it |
| JsNumbers.ParseInt | packages/server/src/posts/posts.controller.ts:41-42 | `parseInt(s, 10)` is a number exactly when a digit follows the leading white space and the optional sign; otherwise it is NaN |
| JsNumbers.ParseIntSign | packages/server/src/posts/posts.controller.ts:41-42 | a negative result only ever follows a minus sign |
| JsNumbers.DecimalString | packages/server/src/posts/posts.controller.ts:41-42 | the decimal form of a natural number: digits only, non-empty, no leading zero |
| JsNumbers.DecimalStringValue | packages/server/src/posts/posts.controller.ts:41-42 | the digits of the decimal form denote the number |
| JsNumbers.DigitPrefixOfDigits | packages/server/src/posts/posts.controller.ts:41-42 | the digit run of digits followed by a non-digit is those digits |
| JsNumbers.ParseDigitLedString | packages/server/src/posts/posts.controller.ts:41-42 | a string that starts with a digit is read as its leading digit run |
| JsNumbers.ParseDecimal | packages/server/src/posts/posts.controller.ts:41-42 | a number written in decimal, followed by any non-digit text, reads back as itself |
| JsNumbers.TrimWhitespacePrefix | packages/server/src/posts/posts.controller.ts:41-42 | white space in front of text that does not start with white space is dropped, and nothing else is |
| JsNumbers.ParseUnsignedDecimal | packages/server/src/posts/posts.controller.ts:41-42 | white space, then a number in decimal, then any non-digit text, reads back as the number |
| JsNumbers.ParseSignedDecimal | packages/server/src/posts/posts.controller.ts:41-42 | the same after a sign: '-' gives the negated number and '+' the number itself |
| JsNumbers.ParseDigitLed | packages/server/src/posts/posts.controller.ts:41-42 | '12abc' is 12 |
| JsNumbers.ParseAfterWhitespace | packages/server/src/posts/posts.controller.ts:41-42 | '  7' is 7 |
| JsNumbers.NoLeadingDigitIsNaN | packages/server/src/posts/posts.controller.ts:41-42 | a string starting with anything but white space, a sign or a digit is NaN |
| JsNumbers.ParseNoDigits | packages/server/src/posts/posts.controller.ts:41-42 | 'abc', '' and '-x' are NaN |
| PostsController.ParseOr | packages/server/src/posts/posts.controller.ts:41-42 | an absent or empty value takes the default; any other value is parsed, and it is not defaulted when parsing yields NaN |
| PostsController.Options | packages/server/src/posts/posts.controller.ts:41-42 | page is 1 and limit is 10 unless given; a given value is its `parseInt` |
| PostsController.GetAllPosts | packages/server/src/posts/posts.controller.ts:36-55 | a non-empty `userId` calls `findByUserId` with that user, anything else calls `findAll`, and both get the parsed options |
| PostsController.GetHotPosts | packages/server/src/posts/posts.controller.ts:59-70 | `findHotPosts` receives the parsed page and limit with the same defaults |
| PostsController.Delete | packages/server/src/posts/posts.controller.ts:90-97 | BadRequest exactly when the path id fails the UUID test of `ParseUUIDPipe`, and the service is not called; otherwise the service receives the path id and the authenticated requester's id |
| PostsController.DefaultFeed | packages/server/src/posts/posts.controller.ts:41-54 | without query values, or with empty ones, the feed asks `findAll` for page 1 of 10 |
| PostsController.DecimalOptionsRoundTrip | packages/server/src/posts/posts.controller.ts:41-42 | page and limit written in decimal reach the service as those numbers |
| PostsController.NonNumericIsNaN | packages/server/src/posts/posts.controller.ts:41-42 | non-numeric page and limit become NaN, not the defaults |
| ClassValidator.RequiredUuidMeaning | packages/server/src/posts/dto/create-post.dto.ts:22-24 | `@IsNotEmpty() @IsUUID()` passes exactly for a non-empty UUID string |
| PostDtos.TitlePropertyMeaning | packages/server/src/posts/dto/create-post.dto.ts:11-15 | the title decorators pass exactly for a string of 1 to 200 characters |
| PostDtos.ContentPropertyMeaning | packages/server/src/posts/dto/create-post.dto.ts:17-20 | the content decorators pass exactly when content is absent, null, or a string of at most 5000 characters (empty allowed) |
| PostDtos.ValidCreatePost | packages/server/src/posts/dto/create-post.dto.ts:10-25 | a body is valid exactly when all of these hold: the title is a string of 1 to 200 characters; content is absent, null or at most 5000 characters; `userId` is a non-empty UUID |
| PostDtos.OptionalTitlePropertyMeaning | packages/server/src/posts/dto/update-post.dto.ts:4-8 | an update's title passes exactly when absent, null, or a string of 1 to 200 characters |
| PostDtos.ValidUpdatePost | packages/server/src/posts/dto/update-post.dto.ts:3-14 | valid exactly when the title and content rules both hold; both fields are optional |
| PostDtos.CreatePostFromBody | packages/server/src/posts/posts.service.ts:20-20 | what `create` destructures from a valid body: a title of 1 to 200 characters, content of at most 5000 if any, a non-empty UUID owner |
| PostDtos.UpdatePostFromBody | packages/server/src/posts/dto/update-post.dto.ts:3-14 | the declared title and content of a valid update meet the same bounds |
| PostDtos.EmptyUpdateIsValid | packages/server/src/posts/dto/update-post.dto.ts:3-14 | the empty update body is valid and assigns nothing |
| PostDtos.UpdateIgnoresUndeclared | packages/server/src/posts/dto/update-post.dto.ts:3-14 | properties other than title and content never change whether an update is valid |
| CommentDtos.ContentPropertyMeaning | packages/server/src/comments/dto/create-comment.dto.ts:4-7 | the comment content decorators pass exactly for a string of 1 to 5000 characters |
| CommentDtos.ValidCreateComment | packages/server/src/comments/dto/create-comment.dto.ts:3-16 | valid exactly when content has 1 to 5000 characters and `userId` and `postId` are non-empty UUIDs |
| CommentDtos.ValidUpdateComment | packages/server/src/comments/dto/update-comment.dto.ts:3-16 | the same three requirements; nothing is optional |
| CommentDtos.CreateCommentFromBody | packages/server/src/comments/comments.service.ts:20-20 | what `create` destructures from a valid body: content of 1 to 5000 characters and UUID ids |
| CommentDtos.UpdateCommentFromBody | packages/server/src/comments/dto/update-comment.dto.ts:3-16 | what `Object.assign` copies from a valid update meets the same bounds |
| CommentDtos.EmptyUpdateIsInvalid | packages/server/src/comments/dto/update-comment.dto.ts:3-16 | an empty comment update is rejected |
| UserDtos.ValidCreateUser | packages/server/src/users/dto/create-user.dto.ts:3-15 | valid exactly when username and password are non-empty strings and role is absent, null, 'user' or 'admin' |
| UserDtos.CreateUserFromBody | packages/server/src/users/dto/create-user.dto.ts:3-15 | a valid body yields a non-empty username and password and a role of 'user' or 'admin' if any |
| UserDtos.ValidUpdateUser | packages/server/src/users/dto/update-user.dto.ts:4-22 | every property is optional. Username, password and role need only be strings (empty allowed), and isActive a boolean |
| UserDtos.RoleNameCheckedOnlyAtCreation | packages/server/src/users/dto/create-user.dto.ts:12-14 | 'superuser' is rejected as a role at creation, but accepted in an update |
| UserDtos.UpdateIgnoresUserId | packages/server/src/users/dto/update-user.dto.ts:5-5 | `userId` carries no validator: its value never affects validity |
| AuthContext.InitialState | packages/web/src/contexts/auth-context.tsx:63-69 | signed out, loading, no error, and consistent |
| AuthContext.AuthReducer | packages/web/src/contexts/auth-context.tsx:22-60 | consistency is preserved. AUTH_START, CLEAR_ERROR, SET_LOADING and unknown actions keep the session. AUTH_SUCCESS signs in with the payload. AUTH_ERROR and LOGOUT sign out. Loading and error are set per action as in the source. An unknown action changes nothing |
| AuthContext.ReplayKeepsConsistent | packages/web/src/contexts/auth-context.tsx:22-60 | any sequence of actions keeps a consistent state consistent |
| AuthContext.ReachableStatesConsistent | packages/web/src/contexts/auth-context.tsx:22-69 | every state reachable from the initial state satisfies: authenticated iff a token is held iff a user is held |
| AuthContext.LogoutForgetsEverything | packages/web/src/contexts/auth-context.tsx:44-52 | LOGOUT yields the same signed-out state from any state |
| AuthContext.LogoutIdempotent | packages/web/src/contexts/auth-context.tsx:44-52 | logging out twice is logging out once |
| AuthContext.LogoutLast | packages/web/src/contexts/auth-context.tsx:22-60 | whatever was dispatched before, a final LOGOUT yields the signed-out state |
| AuthGuard.RedirectTo | packages/web/src/hooks/use-auth-guard.ts:14-14 | '/auth/login' only when `redirectTo` is undefined; any given value, even '', is kept |
| AuthGuard.Enabled | packages/web/src/hooks/use-auth-guard.ts:14-14 | enabled unless explicitly false |
| AuthGuard.Guard.constructor | packages/web/src/hooks/use-auth-guard.ts:17-18 | both flags start false |
| AuthGuard.Guard.Decide | packages/web/src/hooks/use-auth-guard.ts:20-37 | disabled or loading leaves both flags. Signed out, or a role mismatch, sets a redirect and clears authorisation. Otherwise it authorises and clears the redirect. The flags are never both set |
| AuthGuard.Guard.Redirect | packages/web/src/hooks/use-auth-guard.ts:39-48 | a redirect happens exactly when one is due and loading is over. It goes to '/' for a signed-in user when a role was required, and to `redirectTo` otherwise |
| AuthGuard.Guard.ExposedIsAuthorized | packages/web/src/hooks/use-auth-guard.ts:54-54 | never true while a redirect is due; equal to the stored flag in every valid state |
| AuthGuard.MissingRoleMismatches | packages/web/src/hooks/use-auth-guard.ts:29 | a signed-in user with no role (`role?: string`) fails every required role |
| AuthGuard.Mount | packages/web/src/hooks/use-auth-guard.ts:13-57 | once the two effects have settled against one auth state, the component is authorised exactly when the guard is enabled, loading is over, the user is signed in and no role mismatches. It redirects exactly when enabled, not loading, and signed out or mismatched: '/' for a signed-in user, `redirectTo` for a signed-out one. Authorised and redirecting never coincide |
| AuthGuard.SignedOutGoesToLogin | packages/web/src/hooks/use-auth-guard.ts:14-46 | with default options a signed-out user is sent to '/auth/login' |
| Middleware.SingleRoute | packages/web/middleware.ts:30-36 | `some(startsWith)` over the one-route lists is a single prefix test |
| Middleware.PublicNotGuarded | packages/web/middleware.ts:9-15 | no public path lies under '/dashboard' or '/admin' |
| Middleware.Middleware | packages/web/middleware.ts:4-44 | redirects to '/dashboard' exactly for a truthy token on the sign-in or sign-up page. Redirects to '/auth/login' exactly for a non-public path under '/dashboard' or '/admin' without a token. Everything else passes, and an empty token counts as none |
| Middleware.RedirectsSettle | packages/web/middleware.ts:18-43 | the page a redirect lands on passes with the same cookie |
| Middleware.PublicMatchIsExact | packages/web/middleware.ts:18-18 | '/auth/login/x' is not public and passes with or without a token |
| Middleware.AdminNeedsOnlyAToken | packages/web/middleware.ts:36-41 | any non-empty token opens the admin area; the role is never checked |
| Middleware.SignedOutKeptOut | packages/web/middleware.ts:30-39 | without a token every path under '/dashboard' or '/admin' goes to '/auth/login' |
| RedirectHandler.ProtectedRouteMeaning | packages/web/src/components/auth/redirect-handler.tsx:7-21 | a path is protected exactly when it starts with '/profile', '/settings' or '/admin' |
| RedirectHandler.RedirectTarget | packages/web/src/components/auth/redirect-handler.tsx:16-29 | never while loading. To '/auth/login' exactly for a signed-out visitor of a protected path. To '/' exactly for a signed-in visitor of exactly '/auth/login' or '/auth/register'. No redirect otherwise |
| RedirectHandler.RedirectsSettle | packages/web/src/components/auth/redirect-handler.tsx:16-29 | the page a redirect lands on is not redirected again |
| RedirectHandler.MatchingKinds | packages/web/src/components/auth/redirect-handler.tsx:19-22 | auth routes match exactly ('/auth/login/x' is not one) and protected routes by prefix ('/profile/edit' is one) |
| RedirectHandler.AdminAgreesWithMiddleware | packages/web/src/components/auth/redirect-handler.tsx:7-25 | for a signed-out visitor of the admin area, the middleware and the client both send to '/auth/login' |

## Left out

- PostsService.FindAll: requires `page >= 1` and `limit >= 1`. TypeORM's handling of NaN, zero or negative `skip`/`take`, which non-numeric or out-of-range query values reach, is not modelled.
- PostsService.FindByUserId: requires `page >= 1` and `limit >= 1`, for the same reason.
- PostsService.FindByUserId: a `userId` that is not a UUID makes PostgreSQL reject the query, because `user.id` is a uuid column (`packages/server/src/users/user.entity.ts:14`). That error path is not modelled: the model returns an empty page instead.
- PostsService.Page: requires `page >= 1` and `limit >= 1`, for the same reason.
- PostsService.FindAll: the `user` relation joined onto each feed row (`user.id`, `user.username`) is not modelled; a feed row is the post and its comment count.
- PostsService.FindById: the `user` and `comments.user` relations loaded with the post are not modelled.
- UsersService.Update: which row the unconditioned lookup `findOneBy({ id: undefined })` returns is left to the caller as `anyRow`. Any row, or none, may be chosen.
- UsersService.Update: `role` is typed as a role. A role string that names no role, which the update DTO lets through, and the empty string, which is falsy and so passes the role check yet would still be written, cannot be expressed.
- UsersService.Update: a property sent as null is read as absent. The spread `{...updateData}` would write null.
- PostsService.Update: a title or content sent as null is read as absent. `Object.assign` would write null.
- PostsService.Assigned: assumes the update body carries only `title` and `content`. Validation lets undeclared properties through, and `Object.assign` would copy them onto the post, so a body naming `id`, `user` or `createdAt` would overwrite those columns. The model does not capture that.
- PostsService.Update: the same assumption applies. A body that names other columns would change them in the saved and returned post, which the model does not capture.
- UsersService.Patched: writes only the password hash. The spread in the source also hands the plaintext `password` key to the repository, and how TypeORM treats a key that names no column is not modelled.
- UsersService.Create: `packages/server/src/users/user.entity.ts` shows no `role` or `isActive` columns. The services rely on both, and the model takes their defaults to be role user and active.
- `findHotPosts` is called by the controller but defined nowhere in the posts service. `PostsController.GetHotPosts` models only the call.
- Comment deletion with an ownership check, and `login`/`register` with an active-user check, appear only in tests. The services do not have them, and the model follows the services.
- bcrypt hashing and comparison, JWT signing and the UUID grammar are parameters, not implementations. Hashing is taken to be deterministic.
- Database constraints are not modelled: foreign keys (a comment on a nonexistent post), cascades, soft deletion, and the `createdAt`/`updatedAt` columns a database fills in. Fresh ids and creation times are parameters.
- UsersService.FindByUsername: with duplicate usernames the database's choice of row is modelled as an arbitrary matching row.
- Feed ties: posts or comments with equal `createdAt` come in an order left open, as the database leaves it.
- JsNumbers.ParseInt: results are exact integers. Doubles lose precision above 2^53, and `-0` is not distinguished from 0.
- `@MaxLength`/`@MinLength` count code points but skip the variation selectors U+FE0E and U+FE0F. The model counts every character, those included.
- Controllers other than the posts controller's query parsing and requester wiring are not modelled, nor are Nest modules, `main.ts`, the middleware `config.matcher` or the e2e tests.
- The web client's UI, its API client, `localStorage`, and the `AuthProvider` effects that call the server are left out. The client user is the `User` type of `packages/web/src/types/user.ts:1-8` without its timestamp and post count. Its `role` is optional there (`role?: string`) and is modelled as an optional string, so a user without a role fails every required role.
- `redirect()` in Next.js ends rendering by throwing. The model returns the redirect target instead.
- AuthGuard.Mount: runs the two effects once against one auth state. Re-renders with changing state are covered by `AuthGuard.Guard.Decide` step by step.
- Concurrency between requests (last write wins) is not modelled.

## Findings

| source | as written | input that shows it | evidently intended | confidence | as-written member | corrected member |
|---|---|---|---|---|---|---|
| packages/server/src/users/users.service.ts:80-96 | the requester is looked up with `findOneBy({ id: updateData.userId })` even when `userId` is undefined, and TypeORM then drops the condition and may return any row | `update(id, { role: 'admin' })` with no `userId`, for a regular target, while the lookup returns an admin row | an update without `userId` has no requester and is refused | not executed; medium | UsersService.UpdateWithoutRequesterBypass | UsersService.UpdateWithoutRequesterRefused |
