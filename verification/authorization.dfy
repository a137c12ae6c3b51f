/** Resource-operation authorisation: the operation enum, the requirement
    value, the handler context of the authorisation framework, and the
    comment handler's decision table. */
module Authorization {
  import opened Errors
  import opened Int32Text
  import opened Claims
  import opened Entities

  datatype ResourceOperation = Create | Read | Update | Delete

  /** Immutable: the constructor stores the operation and nothing can
      change it afterwards. */
  datatype ResourceOperationRequirement = ResourceOperationRequirement(resourceOperation: ResourceOperation)

  /** Every operation, each once. */
  function AllOperations(): (ops: seq<ResourceOperation>)
    ensures |ops| == 4
    ensures forall op: ResourceOperation :: op in ops
    ensures forall i, j :: 0 <= i < j < |ops| ==> ops[i] != ops[j]
  {
    var ops := [Create, Read, Update, Delete];
    EveryOperationListed(ops);
    ops
  }

  lemma EveryOperationListed(ops: seq<ResourceOperation>)
    requires ops == [Create, Read, Update, Delete]
    ensures forall op: ResourceOperation :: op in ops
  {
    forall op: ResourceOperation
      ensures op in ops
    {
      match op
      case Create => assert ops[0] == op;
      case Read => assert ops[1] == op;
      case Update => assert ops[2] == op;
      case Delete => assert ops[3] == op;
    }
  }

  /** Create and Read are granted without looking at ownership. */
  predicate IsOwnerFree(op: ResourceOperation) {
    op == Read || op == Create
  }

  /** The per-call state of the framework's `AuthorizationHandlerContext`:
      the requirements still pending, and whether `Succeed` or `Fail` was
      ever called. */
  datatype AuthorizationHandlerContext = AuthorizationHandlerContext(
    user: Option<Principal>,
    requirements: set<ResourceOperationRequirement>,
    pending: set<ResourceOperationRequirement>,
    succeedCalled: bool,
    failCalled: bool)

  function NewContext(user: Option<Principal>, requirements: set<ResourceOperationRequirement>): AuthorizationHandlerContext {
    AuthorizationHandlerContext(user, requirements, requirements, false, false)
  }

  /** `context.Succeed(requirement)`. */
  function Succeed(ctx: AuthorizationHandlerContext, req: ResourceOperationRequirement): AuthorizationHandlerContext {
    ctx.(pending := ctx.pending - {req}, succeedCalled := true)
  }

  /** `context.HasSucceeded`. */
  predicate HasSucceeded(ctx: AuthorizationHandlerContext) {
    !ctx.failCalled && ctx.succeedCalled && ctx.pending == {}
  }

  /** Succeeding a second time for the same requirement changes nothing. */
  lemma SucceedIdempotent(ctx: AuthorizationHandlerContext, req: ResourceOperationRequirement)
    ensures Succeed(Succeed(ctx, req), req) == Succeed(ctx, req)
    ensures req !in Succeed(ctx, req).pending
  {
  }

  /** The body of the comment handler's `HandleRequirementAsync`, given the
      resource's `CreatedById`. Create and Read succeed first; then the
      first NameIdentifier claim is read and parsed unconditionally, and
      the requirement succeeds (again) when it equals the owner. */
  function HandleRequirement(ctx: AuthorizationHandlerContext, req: ResourceOperationRequirement, ownerId: Option<Int32>)
    : (r: Result<AuthorizationHandlerContext>)
    ensures ctx.user.None? ==> r == Err(NullReference)
    ensures ctx.user.Some? && NameIdentifierOf(ctx.user.value).Err? ==> r == Err(NameIdentifierOf(ctx.user.value).error)
    ensures r.Ok? <==> ctx.user.Some? && NameIdentifierOf(ctx.user.value).Ok?
    // the handler never calls Fail and touches nothing but `req`
    ensures r.Ok? ==> r.value.user == ctx.user && r.value.requirements == ctx.requirements
                      && r.value.failCalled == ctx.failCalled
                      && r.value.pending <= ctx.pending && ctx.pending - r.value.pending <= {req}
    ensures r.Ok? ==> var userId := NameIdentifierOf(ctx.user.value).value;
                      ((req in r.value.pending)
                        <==> (req in ctx.pending && !IsOwnerFree(req.resourceOperation) && ownerId != Some(userId)))
                      && r.value.succeedCalled == (ctx.succeedCalled || IsOwnerFree(req.resourceOperation) || ownerId == Some(userId))
  {
    var afterTable := if IsOwnerFree(req.resourceOperation) then Succeed(ctx, req) else ctx;
    match ctx.user
    case None => Err(NullReference)
    case Some(principal) =>
      match NameIdentifierOf(principal)
      case Err(e) => Err(e)
      case Ok(userId) => Ok(if ownerId == Some(userId) then Succeed(afterTable, req) else afterTable)
  }

  /** `CommentOperationRequirementHandler.HandleRequirementAsync`: the
      comment enters the decision only through its owner. */
  function HandleCommentRequirement(ctx: AuthorizationHandlerContext, req: ResourceOperationRequirement, comment: Comment)
    : Result<AuthorizationHandlerContext>
  {
    HandleRequirement(ctx, req, comment.createdById)
  }

  /** The comment enters the decision only through its owner: two comments
      with the same `CreatedById` are handled alike, whatever their ids and
      contents. */
  lemma CommentDecisionOnlyByOwner(ctx: AuthorizationHandlerContext, req: ResourceOperationRequirement, c: Comment, d: Comment)
    requires c.createdById == d.createdById
    ensures HandleCommentRequirement(ctx, req, c) == HandleCommentRequirement(ctx, req, d)
  {
  }

  /** `AuthorizeAsync(user, resource, requirement).Succeeded` with the
      handler above as the only one: a fresh context whose one requirement
      is `req`, the handler run on it, then `HasSucceeded`. An exception in
      the handler escapes to the caller. */
  function Authorize(user: Option<Principal>, ownerId: Option<Int32>, req: ResourceOperationRequirement): (r: Result<bool>)
    ensures user.None? ==> r == Err(NullReference)
    ensures user.Some? && NameIdentifierOf(user.value).Err? ==> r == Err(NameIdentifierOf(user.value).error)
    ensures user.Some? && NameIdentifierOf(user.value).Ok? ==>
              r == Ok(IsOwnerFree(req.resourceOperation) || ownerId == Some(NameIdentifierOf(user.value).value))
  {
    match HandleRequirement(NewContext(user, {req}), req, ownerId)
    case Err(e) => Err(e)
    case Ok(ctx) => Ok(HasSucceeded(ctx))
  }

  /** Only the first NameIdentifier claim matters: names, roles and any
      later NameIdentifier claims are ignored. */
  lemma DecisionIgnoresOtherClaims(p: Principal, q: Principal, ownerId: Option<Int32>, req: ResourceOperationRequirement)
    requires FindFirst(p, NameIdentifierType) == FindFirst(q, NameIdentifierType)
    ensures Authorize(Some(p), ownerId, req) == Authorize(Some(q), ownerId, req)
  {
  }

  /** For the owner, Create and Read succeed twice; the context ends the
      same as after one `Succeed`. */
  lemma OwnerReadSucceedsOnce(ctx: AuthorizationHandlerContext, req: ResourceOperationRequirement, userId: Int32)
    requires ctx.user.Some? && NameIdentifierOf(ctx.user.value) == Ok(userId)
    requires IsOwnerFree(req.resourceOperation)
    ensures HandleRequirement(ctx, req, Some(userId)) == Ok(Succeed(ctx, req))
  {
    SucceedIdempotent(ctx, req);
  }
}
