/** The post service run with the comment handler's decision table as its
    authoriser (an instance: no post handler exists in the application),
    and the end-to-end flows: issue a token, read the principal back,
    create, delete and update posts. */
module Scenarios {
  import opened Errors
  import opened Int32Text
  import opened Claims
  import opened Entities
  import opened Authorization
  import opened UserContext
  import opened Jwt
  import opened UserAccount
  import opened PostService

  /** The ownership table applied to a post's owner. */
  function OwnerTable(q: AuthQuery): Result<bool> {
    Authorize(q.user, q.resource.createdById, q.requirement)
  }

  function SimplePrincipal(id: string, role: string): Principal {
    [Claim(NameIdentifierType, id), Claim(RoleType, role)]
  }

  function Request(p: Principal): Option<HttpContext> {
    Some(HttpContext(Some(p)))
  }

  /** The principal the test filter installs: id "1" with the roles
      "Admin User" and "User". */
  function FakeTestUser(): Principal {
    [Claim(NameIdentifierType, "1"), Claim(RoleType, "Admin User"), Claim(RoleType, "User")]
  }

  /** Under the ownership table, a delete by a user whose id parses succeeds
      exactly when that user owns the stored post; otherwise it is Forbid
      and the table is unchanged. */
  lemma DeleteAllowedIffOwner(store: Store, postId: Int32, p: Principal, userId: Int32)
    requires postId in store
    requires NameIdentifierOf(p) == Ok(userId)
    ensures var r := DeletePost(store, postId, Request(p), OwnerTable);
            (r.outcome.Ok? <==> store[postId].createdById == Some(userId))
            && (r.outcome.Err? ==> r.outcome == Err(Forbid(NoAccessMessage)) && r.store == store)
  {
  }

  /** The same for updates. */
  lemma UpdateAllowedIffOwner(store: Store, post: Post, p: Principal, userId: Int32)
    requires post.id in store
    requires NameIdentifierOf(p) == Ok(userId)
    ensures var r := UpdatePost(store, post, Request(p), OwnerTable);
            (r.outcome.Ok? <==> store[post.id].createdById == Some(userId))
            && (r.outcome.Err? ==> r.outcome == Err(Forbid(NoAccessMessage)) && r.store == store)
  {
  }

  /** A request whose principal has no NameIdentifier claim fails with the
      handler's null dereference on an existing post, and with NotFound on
      a missing one; the table never changes. */
  lemma AnonymousMutationFails(store: Store, post: Post, p: Principal)
    requires !HasType(p, NameIdentifierType)
    ensures var r := UpdatePost(store, post, Request(p), OwnerTable);
            r.store == store
            && r.outcome == (if post.id in store then Err(NullReference) else Err(NotFound(PostNotFoundMessage)))
    ensures var r := DeletePost(store, post.id, Request(p), OwnerTable);
            r.store == store
            && r.outcome == (if post.id in store then Err(NullReference) else Err(NotFound(PostNotFoundMessage)))
  {
  }

  /** A principal whose NameIdentifier claim is the text of `id` reads
      back as `id`. */
  lemma PrincipalIdentifies(id: Int32, role: string)
    ensures NameIdentifierOf(SimplePrincipal(FormatInt(id), role)) == Ok(id)
  {
    FormatParseRoundTrip(id);
  }

  /** User 1 creates a post; user 2 (role "User") may not delete it and the
      table stays as it was; user 1 may, and the post is gone. */
  lemma OwnerDeleteScenario(draft: Post)
    ensures var alice := Request(SimplePrincipal("1", "User"));
            var bob := Request(SimplePrincipal("2", "User"));
            var created := CreatePost(map[], draft, alice, 7);
            && created.outcome == Ok(7)
            && created.store[7].createdById == Some(1)
            && DeletePost(created.store, 7, bob, OwnerTable).outcome == Err(Forbid(NoAccessMessage))
            && DeletePost(created.store, 7, bob, OwnerTable).store == created.store
            && DeletePost(created.store, 7, alice, OwnerTable).outcome == Ok(())
            && DeletePost(created.store, 7, alice, OwnerTable).store == map[]
  {
    assert FormatInt(1) == "1" && FormatInt(2) == "2";
    PrincipalIdentifies(1, "User");
    PrincipalIdentifies(2, "User");
    var alice := Request(SimplePrincipal("1", "User"));
    var bob := Request(SimplePrincipal("2", "User"));
    var created := CreatePost(map[], draft, alice, 7);
    assert GetUserId(alice) == Ok(Some(1));
    assert created.store[7].createdById == Some(1);
    DeleteAllowedIffOwner(created.store, 7, SimplePrincipal("2", "User"), 2);
    DeleteAllowedIffOwner(created.store, 7, SimplePrincipal("1", "User"), 1);
    assert created.store - {7} == map[];
  }

  /** The test filter's roles grant nothing: its user may not delete a post
      of user 2, and may read it. */
  lemma FakeTestUserRolesGrantNothing(post: Post)
    requires post.createdById == Some(2)
    ensures Authorize(Some(FakeTestUser()), post.createdById, ResourceOperationRequirement(Delete)) == Ok(false)
    ensures Authorize(Some(FakeTestUser()), post.createdById, ResourceOperationRequirement(Read)) == Ok(true)
  {
    FakeTestUserIdentifies();
  }

  /** The test filter's principal reads back as user 1. */
  lemma FakeTestUserIdentifies()
    ensures NameIdentifierOf(FakeTestUser()) == Ok(1)
  {
    var p := FakeTestUser();
    assert p[0] == Claim(NameIdentifierType, FormatInt(1));
    assert FindFirst(p, NameIdentifierType) == Some(p[0]);
    FormatParseRoundTrip(1);
  }

  /** A post created by the holder of an issued token may be updated and
      deleted by that holder, while the token is valid. */
  lemma IssuedTokenOwnsCreatedPost(settings: AuthenticationSettings, users: seq<User>, permissions: map<Int32, string>,
                                   login: LoginDto, verify: Verifier, now: int, later: int,
                                   store: Store, draft: Post, newId: Int32, edit: Post)
    requires Authenticate(users, permissions, login, verify).Ok?
    requires later <= AddDays(now, settings.jwtExpireDays) + DefaultClockSkew
    requires !IsBlank(settings.jwtIssuer)
    requires newId !in store && edit.id == newId
    ensures var token := GenerateJwt(settings, users, permissions, login, verify, now).value;
            ValidateToken(ValidationFor(settings), token, later).Ok? &&
            var principal := ValidateToken(ValidationFor(settings), token, later).value;
            var created := CreatePost(store, draft, Request(principal), newId);
            && created.outcome == Ok(newId)
            && UpdatePost(created.store, edit, Request(principal), OwnerTable).outcome == Ok(())
            && DeletePost(created.store, newId, Request(principal), OwnerTable).outcome == Ok(())
  {
    IssuedTokenRoundTrip(settings, users, permissions, login, verify, now, later);
  }
}
