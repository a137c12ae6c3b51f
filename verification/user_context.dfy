/** The current request's principal and the user id read from it. */
module UserContext {
  import opened Errors
  import opened Int32Text
  import opened Claims

  /** The part of `HttpContext` the service reads: its (nullable) user. */
  datatype HttpContext = HttpContext(user: Option<Principal>)

  /** `User => HttpContextAccessor.HttpContext?.User`: no context means no
      principal, otherwise the context's principal as it is. */
  function CurrentUser(http: Option<HttpContext>): (u: Option<Principal>)
    ensures http.None? ==> u.None?
    ensures http.Some? ==> u == http.value.user
  {
    match http
    case None => None
    case Some(context) => context.user
  }

  /** `GetUserId`: null without a principal; otherwise the parsed first
      NameIdentifier claim, so a principal without one is an error and
      not null. */
  function GetUserId(http: Option<HttpContext>): (r: Result<Option<Int32>>)
    ensures r == Ok(None) <==> CurrentUser(http).None?
    ensures CurrentUser(http).Some? && !HasType(CurrentUser(http).value, NameIdentifierType) ==> r == Err(NullReference)
    ensures CurrentUser(http).Some? && NameIdentifierOf(CurrentUser(http).value).Ok? ==>
              r == Ok(Some(NameIdentifierOf(CurrentUser(http).value).value))
    ensures CurrentUser(http).Some? && NameIdentifierOf(CurrentUser(http).value).Err? ==>
              r == Err(NameIdentifierOf(CurrentUser(http).value).error)
  {
    match CurrentUser(http)
    case None => Ok(None)
    case Some(principal) =>
      match NameIdentifierOf(principal)
      case Err(e) => Err(e)
      case Ok(id) => Ok(Some(id))
  }
}
