/** The post service as a state machine over the posts table, a map from
    post id to post. Authorisation is a parameter: a function from the
    query the service makes (principal, persisted post, requirement) to
    the framework's verdict, or to the exception a handler raised. Every
    reply carries the table afterwards and the query made, if any. */
module PostService {
  import opened Errors
  import opened Int32Text
  import opened Claims
  import opened Entities
  import opened Authorization
  import opened UserContext
  import opened TextSearch

  type Store = map<Int32, Post>

  const PostNotFoundMessage: string := "Post not found"
  const NoAccessMessage: string := "You don't have an access to this resorce."

  datatype AuthQuery = AuthQuery(user: Option<Principal>, resource: Post, requirement: ResourceOperationRequirement)

  type Authorizer = AuthQuery -> Result<bool>

  datatype Reply<+T> = Reply(outcome: Result<T>, store: Store, consulted: Option<AuthQuery>)

  // ---------------------------------------------------------------- search

  /** The search filter: no phrase keeps every post; otherwise the lowered
      phrase must occur in the lowered title or the lowered description. */
  predicate Keep(post: Post, phrase: Option<string>) {
    phrase.None?
    || Contains(Lower(post.title), Lower(phrase.value))
    || Contains(Lower(post.description), Lower(phrase.value))
  }

  /** The kept rows, in table order. */
  function KeptRows(rows: seq<Post>, phrase: Option<string>): seq<Post> {
    if rows == [] then []
    else KeptRows(rows[..|rows| - 1], phrase) + (if Keep(rows[|rows| - 1], phrase) then [rows[|rows| - 1]] else [])
  }

  lemma {:induction false} KeptRowsMembership(rows: seq<Post>, phrase: Option<string>)
    ensures forall p :: p in KeptRows(rows, phrase) <==> p in rows && Keep(p, phrase)
    ensures |KeptRows(rows, phrase)| <= |rows|
  {
    if rows != [] {
      var init := rows[..|rows| - 1];
      KeptRowsMembership(init, phrase);
      assert rows == init + [rows[|rows| - 1]];
    }
  }

  /** A phrase every row passes keeps the table as it is. */
  lemma {:induction false} KeptRowsAllKept(rows: seq<Post>, phrase: Option<string>)
    requires forall i :: 0 <= i < |rows| ==> Keep(rows[i], phrase)
    ensures KeptRows(rows, phrase) == rows
  {
    if rows != [] {
      KeptRowsAllKept(rows[..|rows| - 1], phrase);
    }
  }

  /** The filter of `GetAllPostsAsync` over the table's rows in query order:
      exactly the matching posts, in their order; every post without a
      phrase. */
  method GetAllPosts(rows: seq<Post>, phrase: Option<string>) returns (r: seq<Post>)
    ensures r == KeptRows(rows, phrase)
    ensures forall p :: p in r <==> p in rows && Keep(p, phrase)
    ensures phrase.None? || phrase == Some("") ==> r == rows
  {
    r := [];
    var i := 0;
    while i < |rows|
      invariant 0 <= i <= |rows|
      invariant r == KeptRows(rows[..i], phrase)
    {
      assert rows[..i + 1][..i] == rows[..i];
      if Keep(rows[i], phrase) {
        r := r + [rows[i]];
      }
      i := i + 1;
    }
    assert rows[..i] == rows;
    KeptRowsMembership(rows, phrase);
    if phrase == Some("") {
      forall i | 0 <= i < |rows|
        ensures Keep(rows[i], phrase)
      {
        ContainsEmpty(Lower(rows[i].title));
      }
    }
    if phrase.None? || phrase == Some("") {
      KeptRowsAllKept(rows, phrase);
    }
  }

  // ---------------------------------------------------------------- queries

  /** Every post is stored under its own id. */
  predicate WellKeyed(store: Store) {
    forall id :: id in store ==> store[id].id == id
  }

  /** `GetPostByIdAsync`. */
  function GetPostById(store: Store, postId: Int32): (r: Result<Post>)
    ensures r.Ok? <==> postId in store
    ensures r.Ok? ==> r.value == store[postId]
    ensures r.Ok? && WellKeyed(store) ==> r.value.id == postId
    ensures r.Err? ==> r.error == NotFound(PostNotFoundMessage)
  {
    if postId in store then Ok(store[postId]) else Err(NotFound(PostNotFoundMessage))
  }

  // ---------------------------------------------------------------- create

  /** `CreatePostAsync`: the mapped post is stamped with the current user
      id (overriding whatever the mapping put there) and stored under the
      id the database assigns. Reading the user id can fail; then nothing
      is stored. */
  function CreatePost(store: Store, draft: Post, http: Option<HttpContext>, newId: Int32): (r: Reply<Int32>)
    requires newId !in store
    ensures r.consulted.None?
    ensures r.outcome.Err? <==> GetUserId(http).Err?
    ensures r.outcome.Err? ==> r.outcome.error == GetUserId(http).error && r.store == store
    ensures r.outcome.Ok? ==>
              && r.outcome.value == newId
              && r.store.Keys == store.Keys + {newId}
              && (forall id :: id in store ==> r.store[id] == store[id])
              && r.store[newId].createdById == GetUserId(http).value
              && r.store[newId].id == newId
              && r.store[newId].title == draft.title && r.store[newId].description == draft.description
              && r.store[newId].brains == draft.brains && r.store[newId].comments == draft.comments
              && r.store[newId].categories == draft.categories
  {
    match GetUserId(http)
    case Err(e) => Reply(Err(e), store, None)
    case Ok(userId) =>
      Reply(Ok(newId), store[newId := draft.(id := newId, createdById := userId)], None)
  }

  // ---------------------------------------------------------------- delete

  /** `DeletePostAsync`: NotFound before anything else; then the persisted
      post is authorised for Delete; a denial is Forbid. Only an allowed
      request changes the table, by removing that one post. */
  function DeletePost(store: Store, postId: Int32, http: Option<HttpContext>, authorize: Authorizer): (r: Reply<()>)
    ensures postId !in store ==> r == Reply(Err(NotFound(PostNotFoundMessage)), store, None)
    ensures postId in store ==>
              r.consulted == Some(AuthQuery(CurrentUser(http), store[postId], ResourceOperationRequirement(Delete)))
    ensures r.outcome.Err? ==> r.store == store
    ensures postId in store && authorize(r.consulted.value) == Ok(false) ==> r.outcome == Err(Forbid(NoAccessMessage))
    ensures postId in store && authorize(r.consulted.value).Err? ==> r.outcome == Err(authorize(r.consulted.value).error)
    ensures r.outcome.Ok? <==> postId in store && authorize(r.consulted.value) == Ok(true)
    ensures r.outcome.Ok? ==> r.store.Keys == store.Keys - {postId}
                              && forall id :: id in r.store ==> r.store[id] == store[id]
  {
    if postId !in store then Reply(Err(NotFound(PostNotFoundMessage)), store, None)
    else
      var query := AuthQuery(CurrentUser(http), store[postId], ResourceOperationRequirement(Delete));
      match authorize(query)
      case Err(e) => Reply(Err(e), store, Some(query))
      case Ok(false) => Reply(Err(Forbid(NoAccessMessage)), store, Some(query))
      case Ok(true) => Reply(Ok(()), store - {postId}, Some(query))
  }

  // ---------------------------------------------------------------- update

  /** The assignments of a successful update: five fields from the client's
      post, the rest from the persisted one. */
  function ApplyUpdate(stored: Post, incoming: Post): (p: Post)
    ensures p.id == stored.id && p.createdById == stored.createdById
    ensures p.title == incoming.title && p.description == incoming.description && p.brains == incoming.brains
    ensures p.comments == incoming.comments && p.categories == incoming.categories
  {
    stored.(title := incoming.title, description := incoming.description, brains := incoming.brains,
            comments := incoming.comments, categories := incoming.categories)
  }

  /** `UpdatePostAsync`: looks the post up by the client's id, authorises
      Update against the persisted post, and on success overwrites only the
      five editable fields of that one post. */
  function UpdatePost(store: Store, post: Post, http: Option<HttpContext>, authorize: Authorizer): (r: Reply<()>)
    ensures post.id !in store ==> r == Reply(Err(NotFound(PostNotFoundMessage)), store, None)
    ensures post.id in store ==>
              r.consulted == Some(AuthQuery(CurrentUser(http), store[post.id], ResourceOperationRequirement(Update)))
    ensures r.outcome.Err? ==> r.store == store
    ensures post.id in store && authorize(r.consulted.value) == Ok(false) ==> r.outcome == Err(Forbid(NoAccessMessage))
    ensures post.id in store && authorize(r.consulted.value).Err? ==> r.outcome == Err(authorize(r.consulted.value).error)
    ensures r.outcome.Ok? <==> post.id in store && authorize(r.consulted.value) == Ok(true)
    ensures r.outcome.Ok? ==> r.store.Keys == store.Keys
                              && (forall id :: id in store && id != post.id ==> r.store[id] == store[id])
                              && r.store[post.id].id == store[post.id].id
                              && r.store[post.id].createdById == store[post.id].createdById
                              && r.store[post.id].title == post.title
                              && r.store[post.id].description == post.description
                              && r.store[post.id].brains == post.brains
                              && r.store[post.id].comments == post.comments
                              && r.store[post.id].categories == post.categories
  {
    if post.id !in store then Reply(Err(NotFound(PostNotFoundMessage)), store, None)
    else
      var stored := store[post.id];
      var query := AuthQuery(CurrentUser(http), stored, ResourceOperationRequirement(Update));
      match authorize(query)
      case Err(e) => Reply(Err(e), store, Some(query))
      case Ok(false) => Reply(Err(Forbid(NoAccessMessage)), store, Some(query))
      case Ok(true) => Reply(Ok(()), store[post.id := ApplyUpdate(stored, post)], Some(query))
  }

  /** The owner the client claims in the submitted post is never looked at:
      ownership cannot be forged through the request body. */
  lemma UpdateIgnoresClientOwner(store: Store, post: Post, owner: Option<Int32>, http: Option<HttpContext>, authorize: Authorizer)
    ensures UpdatePost(store, post.(createdById := owner), http, authorize) == UpdatePost(store, post, http, authorize)
  {
  }

  /** The table stays well keyed through every operation. */
  lemma OperationsKeepWellKeyed(store: Store, post: Post, postId: Int32, draft: Post, newId: Int32,
                                http: Option<HttpContext>, authorize: Authorizer)
    requires WellKeyed(store) && newId !in store
    ensures WellKeyed(DeletePost(store, postId, http, authorize).store)
    ensures WellKeyed(UpdatePost(store, post, http, authorize).store)
    ensures WellKeyed(CreatePost(store, draft, http, newId).store)
  {
    DeleteKeepsWellKeyed(store, postId, http, authorize);
    UpdateKeepsWellKeyed(store, post, http, authorize);
    CreateKeepsWellKeyed(store, draft, http, newId);
  }

  lemma DeleteKeepsWellKeyed(store: Store, postId: Int32, http: Option<HttpContext>, authorize: Authorizer)
    requires WellKeyed(store)
    ensures WellKeyed(DeletePost(store, postId, http, authorize).store)
  {
  }

  lemma UpdateKeepsWellKeyed(store: Store, post: Post, http: Option<HttpContext>, authorize: Authorizer)
    requires WellKeyed(store)
    ensures WellKeyed(UpdatePost(store, post, http, authorize).store)
  {
  }

  lemma CreateKeepsWellKeyed(store: Store, draft: Post, http: Option<HttpContext>, newId: Int32)
    requires WellKeyed(store) && newId !in store
    ensures WellKeyed(CreatePost(store, draft, http, newId).store)
  {
  }

  /** A created post reads back with its owner stamped. */
  lemma CreateThenGet(store: Store, draft: Post, http: Option<HttpContext>, newId: Int32)
    requires WellKeyed(store) && newId !in store
    requires GetUserId(http).Ok?
    ensures var after := CreatePost(store, draft, http, newId).store;
            WellKeyed(after) && GetPostById(after, newId).Ok?
            && GetPostById(after, newId).value.createdById == GetUserId(http).value
  {
  }

  /** After an allowed delete the post is gone and every other post reads
      back unchanged. */
  lemma DeleteThenGet(store: Store, postId: Int32, other: Int32, http: Option<HttpContext>, authorize: Authorizer)
    requires WellKeyed(store)
    requires DeletePost(store, postId, http, authorize).outcome.Ok?
    requires other != postId
    ensures var after := DeletePost(store, postId, http, authorize).store;
            WellKeyed(after)
            && GetPostById(after, postId) == Err(NotFound(PostNotFoundMessage))
            && GetPostById(after, other) == GetPostById(store, other)
  {
  }
}
