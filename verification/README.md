# ShareKnowledgeAPI authorisation and session layer in Dafny

This project models the authorisation and session core of ShareKnowledgeAPI, an ASP.NET post/comment API. Everything is written as pure functions over immutable data.

- **Resource operations.** The `ResourceOperation` enum (Create, Read, Update, Delete) and the immutable `ResourceOperationRequirement` value. Both are Dafny datatypes, so the constructor stores the operation unchanged and nothing can change it afterwards.
- **Comment handler.** The decision table of `CommentOperationRequirementHandler`. It runs over a model of the framework's handler context: pending requirements, `Succeed`, `HasSucceeded`. The model keeps the source's quirk that the NameIdentifier claim is read and parsed for every operation. So a missing claim is a null dereference, and a non-numeric claim is a parse error, even for Read and Create.
- **User context.** `UserContextService.User` and `GetUserId`.
- **Login and registration.** `GenerateJwt`: first user matching the email, an abstract password verifier, one error message for both failure paths, the three claims, issuer = audience, and the expiry. `RegisterUser` and the file-name rule of `UploadedFile`.
- **Token validator.** The bearer-token validator configured in `Program.cs`. It is used to state the login/user-id round trip and the expired-token property.
- **Post service.** A state machine over `map<Int32, Post>` with search, get, create, delete and update. Authorisation is a function parameter. Each reply records the store after the call and the authorisation query the service made, so "NotFound before authorisation" and "authorises the persisted post" are stated directly. The `Scenarios` module runs the service with the comment handler's table as the authoriser. The application has no post handler, so this is an instance of the service, not a handler of the source.

Integers are the C# `int`: the subset type `Int32`. `int.Parse` and `Int32.ToString` are modelled exactly for the invariant culture:
- white space around the number, an optional sign, and at least one digit;
- a format error for anything else;
- an overflow error outside the 32-bit range.

Text lowering is ASCII. `Contains` is ordinal. Time is a whole number of seconds.

Files: `errors.dfy`, `int32_text.dfy`, `text_search.dfy`, `claims.dfy`, `entities.dfy`, `authorization.dfy`, `user_context.dfy`, `jwt.dfy`, `user_account.dfy`, `post_service.dfy`, `scenarios.dfy`.

## Model

| member | source | states |
|---|---|---|
| Authorization.AllOperations | ShareKnowledgeAPI/Authorization/ResourceOperationRequirement.cs:5-11 | There are exactly four operations; every operation is among them and they are pairwise distinct |
| Authorization.SucceedIdempotent | ShareKnowledgeAPI/Authorization/CommentOperationRequirementHandler.cs:17-24 | Calling `Succeed` twice for a requirement leaves the context as one call does, with the requirement no longer pending |
| Authorization.HandleRequirement | ShareKnowledgeAPI/Authorization/CommentOperationRequirementHandler.cs:10-28 | No principal or no NameIdentifier claim is a null dereference and a bad claim value is the parse error, for every operation. Otherwise the handler never fails and touches only its own requirement: that requirement stops pending iff the operation is Create/Read or the owner equals the parsed id, and `Succeed` has been called iff it had been before or one of those two holds |
| Authorization.CommentDecisionOnlyByOwner | ShareKnowledgeAPI/Authorization/CommentOperationRequirementHandler.cs:10-28 | The comment handler looks at a comment only through its `CreatedById`: comments with the same owner get the same outcome |
| Authorization.Authorize | ShareKnowledgeAPI/Authorization/CommentOperationRequirementHandler.cs:13-25 | Decision table. With a parsable NameIdentifier, Create/Read are allowed whoever owns the resource, and Update/Delete are allowed iff `CreatedById` equals the id. A missing claim or a bad value is an error, never a deny |
| Authorization.DecisionIgnoresOtherClaims | ShareKnowledgeAPI/Authorization/CommentOperationRequirementHandler.cs:20-22 | Two principals with the same first NameIdentifier claim get the same decision, whatever their names, roles or later claims |
| Authorization.OwnerReadSucceedsOnce | ShareKnowledgeAPI/Authorization/CommentOperationRequirementHandler.cs:13-25 | For the owner of the resource, Create/Read succeed twice, and the context equals that after a single `Succeed` |
| Claims.FindFirst | ShareKnowledgeAPI/Implementation/UserContextService.cs:17 | Returns a claim of the principal that has the type, or nothing exactly when no claim has that type |
| Claims.FindFirstIsEarliest | ShareKnowledgeAPI/Implementation/UserContextService.cs:17 | The claim returned is the earliest of its type: every claim before it has another type |
| Claims.NameIdentifierOf | ShareKnowledgeAPI/Authorization/CommentOperationRequirementHandler.cs:20-22 | A null dereference exactly when no NameIdentifier claim exists; otherwise `int.Parse` of the first one's value |
| Int32Text.ParseInt | ShareKnowledgeAPI/Authorization/CommentOperationRequirementHandler.cs:22 | A format error exactly when the trimmed text is not an optionally signed digit string. For such text, an overflow error exactly when its signed decimal value lies outside the 32-bit range, and otherwise that value |
| Int32Text.FormatInt | ShareKnowledgeAPI/Implementation/UserAccountService.cs:55 | The text is non-empty and ends in a digit. It starts with '-' iff the number is negative, and with a digit iff it is not. After the sign come only digits, with no leading zero unless the number is 0 |
| Int32Text.FormatParseRoundTrip | ShareKnowledgeAPI/Implementation/UserContextService.cs:17 | `int.Parse(id.ToString()) == id` for every 32-bit id |
| Int32Text.FormatIntInjective | ShareKnowledgeAPI/Implementation/UserAccountService.cs:55 | Distinct user ids give distinct NameIdentifier claim values |
| TextSearch.ContainsIffOccurs | ShareKnowledgeAPI/Implementation/PostService.cs:40-41 | Ordinal `Contains` holds iff the phrase occurs at some position of the text |
| UserContext.CurrentUser | ShareKnowledgeAPI/Implementation/UserContextService.cs:15 | No HttpContext gives no principal; otherwise the context's principal, unchanged |
| UserContext.GetUserId | ShareKnowledgeAPI/Implementation/UserContextService.cs:16-17 | Null exactly when there is no principal. A principal without a NameIdentifier claim is an error, not null. Otherwise the result is `int.Parse` of the first NameIdentifier claim: its id when it parses, its format or overflow error when not |
| Jwt.ValidationFor | ShareKnowledgeAPI/Program.cs:44-49 | The validator expects `JwtIssuer` as both issuer and audience and `JwtKey` as signing key, and keeps the framework's defaults: required expiry, 300 s skew, and audience comparison ignoring a trailing '/' |
| Jwt.ValidateToken | ShareKnowledgeAPI/Program.cs:40-49 | An accepted token was signed with the configured key and names the expected issuer, and an audience equal to the expected one up to one trailing '/'. Issuer and audience are not blank. It has an expiry no earlier than now minus the skew and no not-before later than now plus the skew. Its principal is exactly its claims. Every rejection is an Unauthorized error |
| Jwt.TrailingSlashAudienceAccepted | ShareKnowledgeAPI/Program.cs:44-49 | With `JwtIssuer` "https://a/", a token addressed to audience "https://a" is accepted, while issuer "https://a" is refused |
| Jwt.BlankIssuerRejectsAll | ShareKnowledgeAPI/Program.cs:44-49 | With a null or white-space `JwtIssuer` the configured validator accepts no token at all |
| Jwt.ExpiredTokenRejected | ShareKnowledgeAPI/Program.cs:44-49 | A correctly signed token whose expiry plus skew has passed never yields a principal |
| UserAccount.FindByEmail | ShareKnowledgeAPI/Implementation/UserAccountService.cs:36-38 | The user found is in the table and its Email equals the login email; nothing is found exactly when no user has it |
| UserAccount.FindByEmailEarliest | ShareKnowledgeAPI/Implementation/UserAccountService.cs:36-38 | The first user whose Email equals the login email is the one found |
| UserAccount.Authenticate | ShareKnowledgeAPI/Implementation/UserAccountService.cs:36-51 | An unknown email and a `Failed` verification both give BadRequest "Invalid email or password.". Success and SuccessRehashNeeded both pass: the login then succeeds exactly when the user's permission row exists, and is the null dereference otherwise. The user passed is the first with that email |
| UserAccount.IssuedClaims | ShareKnowledgeAPI/Implementation/UserAccountService.cs:53-58 | Exactly three claims, in order: a NameIdentifier whose value is `Id.ToString()` and parses back to the id, Name = first + " " + last, Role = permission name |
| UserAccount.GenerateJwt | ShareKnowledgeAPI/Implementation/UserAccountService.cs:34-68 | The corrected issuance (see "## Findings": lines 64-65 as written swap expiry into not-before). Fails exactly when the credential check fails, with the same error. A token carries the login claims, issuer = audience = `JwtIssuer`, expiry = now + `JwtExpireDays` days, no not-before, and `JwtKey` with HS256 |
| UserAccount.GenerateJwtAsWritten | ShareKnowledgeAPI/Implementation/UserAccountService.cs:62-65 | As the source passes its arguments, the token has no expiry and a not-before of now + `JwtExpireDays` days. In every other respect it equals the corrected issuance: the same credential errors, the three login claims, issuer = audience = `JwtIssuer`, and the same signing key |
| UserAccount.AsWrittenTokenNeverValidates | ShareKnowledgeAPI/Implementation/UserAccountService.cs:62-65 | The configured validator rejects every token the source issues, at any time, for lack of an expiry |
| UserAccount.TokenValidatesUntilExpiry | ShareKnowledgeAPI/Program.cs:44-49 | A token signed with `JwtKey`, naming a non-blank `JwtIssuer` as issuer and audience, with an expiry and no not-before, validates to its claims at every time up to expiry plus the 300 s skew |
| UserAccount.IssuedTokenRoundTrip | ShareKnowledgeAPI/Implementation/UserAccountService.cs:53-65 | With a non-blank `JwtIssuer`, a corrected token validates until its expiry plus skew, and `GetUserId` on its principal returns the authenticated user's id |
| UserAccount.GetUserIdOfIssuedClaims | ShareKnowledgeAPI/Implementation/UserContextService.cs:17 | A principal holding the login claims, after any claims of other types, reads back the user's id |
| UserAccount.UploadedFile | ShareKnowledgeAPI/Implementation/UserAccountService.cs:99-115 | No image gives a null name. Otherwise the name is the 36-character guid, then '_', then the original file name |
| UserAccount.UploadedNamesDistinct | ShareKnowledgeAPI/Implementation/UserAccountService.cs:106 | Uploads with different guids never share a file name, whatever the original names |
| UserAccount.RegisterUser | ShareKnowledgeAPI/Implementation/UserAccountService.cs:78-97 | Exactly one user is appended and the existing ones are kept. Email, names, birth date and permission id are copied from the form, the image name follows the upload rule, and the stored hash is `hash(newUser, password)` |
| UserAccount.RegisterSeesPasswordOnlyThroughHash | ShareKnowledgeAPI/Implementation/UserAccountService.cs:92-94 | Two passwords with the same hash produce the same table: the plaintext is not stored |
| UserAccount.RegisterThenLogin | ShareKnowledgeAPI/Implementation/UserAccountService.cs:34-96 | With an unused id and email, an existing permission row for the form's permission id, and a verifier that accepts the password against the newly stored hash: after registering, login with the same credentials issues a token whose NameIdentifier is the new user's id |
| UserAccount.DuplicateEmailShadowed | ShareKnowledgeAPI/Implementation/UserAccountService.cs:78-96 | Registration does not check for a taken email; login then still authenticates the earlier account |
| PostService.GetAllPosts | ShareKnowledgeAPI/Implementation/PostService.cs:33-47 | The result is the table's rows in order, keeping a post iff the phrase is null or its lowered text occurs in the lowered title or description; a null or empty phrase keeps all |
| PostService.GetPostById | ShareKnowledgeAPI/Implementation/PostService.cs:49-60 | NotFound "Post not found" exactly when the id is absent; otherwise the stored post, which carries that id |
| PostService.CreatePost | ShareKnowledgeAPI/Implementation/PostService.cs:62-74 | Adds exactly one post under the new id, with `CreatedById` set to the current user id whatever the mapped value was, and keeps every other post. A failing user-id read stores nothing |
| PostService.DeletePost | ShareKnowledgeAPI/Implementation/PostService.cs:76-94 | An absent id is NotFound and consults no authorisation. Otherwise it asks for a Delete requirement on the persisted post: a deny is Forbid and a handler error propagates, both leaving the store unchanged. An allow removes exactly that post |
| PostService.ApplyUpdate | ShareKnowledgeAPI/Implementation/PostService.cs:112-116 | Title, Description, Brains, Comments and Categories come from the client's post; Id and CreatedById stay as persisted |
| PostService.UpdatePost | ShareKnowledgeAPI/Implementation/PostService.cs:96-119 | An absent id is NotFound with no authorisation. Otherwise it asks for Update against the persisted post, not the client's. Forbid or an error leaves the store unchanged. Success rewrites only the five fields of that one post |
| PostService.UpdateIgnoresClientOwner | ShareKnowledgeAPI/Implementation/PostService.cs:98-105 | The owner written in the client's post has no effect on the reply, so ownership cannot be forged |
| PostService.OperationsKeepWellKeyed | ShareKnowledgeAPI/Implementation/PostService.cs:62-119 | Create, delete and update keep every post stored under its own id |
| PostService.CreateThenGet | ShareKnowledgeAPI/Implementation/PostService.cs:62-74 | A created post reads back by its id with the current user as owner |
| PostService.DeleteThenGet | ShareKnowledgeAPI/Implementation/PostService.cs:76-94 | After an allowed delete the post is NotFound and every other post reads back unchanged |
| Scenarios.DeleteAllowedIffOwner | ShareKnowledgeAPI/Implementation/PostService.cs:84-93 | With the ownership table as authoriser and a parsable id, delete succeeds iff the caller owns the stored post; otherwise Forbid with the store unchanged |
| Scenarios.UpdateAllowedIffOwner | ShareKnowledgeAPI/Implementation/PostService.cs:104-110 | The same for update |
| Scenarios.AnonymousMutationFails | ShareKnowledgeAPI/Authorization/CommentOperationRequirementHandler.cs:20 | Without a NameIdentifier claim, update and delete fail: NotFound for an absent post, otherwise the handler's null dereference. The store is never changed |
| Scenarios.OwnerDeleteScenario | ShareKnowledgeAPI/Implementation/PostService.cs:62-94 | User 1 creates a post and owns it. User 2 is forbidden to delete it and the table stays put. User 1 deletes it |
| Scenarios.FakeTestUserRolesGrantNothing | ShareKnowledgeAPI.Tests/FakeUserFilter.cs:16-24 | The test principal (id "1", roles "Admin User" and "User") may read but not delete a post of user 2: roles grant nothing |
| Scenarios.IssuedTokenOwnsCreatedPost | ShareKnowledgeAPI/Implementation/UserAccountService.cs:53-65 | The holder of a valid issued token creates a post and may then update and delete it under the ownership table |

## Left out

- The HTTP pipeline, dependency injection, Swagger, JSON settings, middleware, and the mapping from exceptions to status codes. `ErrorHandlingMiddleware` is not part of this model.
- JWT compact serialisation and the HMAC-SHA-256 signature. A token is a record that carries the key it was signed with. `JwtSecurityToken` writes each claim type as given (the full `ClaimTypes` URIs), and the inbound claim-type map has no entry for those URIs, so the types come back unchanged. The validator's principal is the token's claims; the registered `iss`/`aud`/`exp`/`nbf` claims the handler also adds have other types and are left out (`GetUserIdOfIssuedClaims` covers any such prefix).
- Key-size checks of the signing library, and the range check of `DateTime.AddDays`. These are configuration errors that throw.
- Password hashing and verification: function parameters.
- `DateTime.Now`: a parameter in whole seconds. One day is 86400 seconds; local-time/UTC conversion is not modelled.
- `Guid.NewGuid`: a 36-character parameter.
- File I/O in `UploadedFile`: the web-root path and the stream copy. Only the name rule is kept.
- EF Core, async/await and the blocking `.Result`; everything is sequential. SQL translation of the queries is not modelled. The model compares emails exactly and lowers text in ASCII, while a case-insensitive database collation could match more.
- The database-assigned ids of new posts and users: a parameter `newId`, required to be unused.
- `CreatePost`: the AutoMapper mapping of the DTO and its categories is not modelled. The mapped post is an input.
- `GetAllPosts`: `DataSeeder.SeedData` and the DTO mapping are not modelled. The filter runs over the table's rows in query order.
- `UpdatePost`: EF Core side effects of replacing the `Comments` and `Categories` navigation collections are not modelled. The model stores the given sequences.
- `GetAll` of the user service: a plain table read.
- `int.Parse`: acceptance of trailing NUL characters is not modelled. Neither are cultures other than the invariant one.
- The entity classes are not part of this model. Fields are those the modelled code reads. `CreatedById` is taken as nullable because `CreatePostAsync` assigns the nullable `GetUserId` to it.
- `.Result` on the authorisation call in `DeletePostAsync` and `UpdatePostAsync` (PostService.cs:85, 105) rethrows a handler exception wrapped in an `AggregateException`. `DeletePost` and `UpdatePost` propagate the handler's error itself; the wrapper only changes which exception type reaches the middleware.
- UserAccount.GenerateJwtAsWritten: the token keeps the computed time as its not-before; whether the token library then writes an `nbf` claim without an `exp` is not modelled. The missing-expiry rejection does not depend on it.
- Authorization.HandleRequirement: a requirement is a value, so two requirement objects with the same operation are one; each call in the source passes a single requirement.

## Findings

| source | as written | input that shows it | evidently intended | confidence | as-written member | corrected member |
|---|---|---|---|---|---|---|
| ShareKnowledgeAPI/Implementation/UserAccountService.cs:64-65 | `new JwtSecurityToken(issuer, issuer, claims, expires, signingCredentials: cred)` passes `expires` as the fourth positional parameter, which is `notBefore`. The token has no expiry and is not valid before now + `JwtExpireDays` days | Any successful login: the validator configured at Program.cs:44-49 requires an expiry (the framework default) and rejects the token at every time with a missing-expiry error | Pass it as `expires: expires`, so the token expires at now + `JwtExpireDays` days and is usable until then | high (from the library's constructor signature); not executed | UserAccount.GenerateJwtAsWritten, UserAccount.AsWrittenTokenNeverValidates | UserAccount.GenerateJwt, UserAccount.IssuedTokenRoundTrip |
