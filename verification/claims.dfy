/** Claims and principals. A claim type is the URI string of
    `System.Security.Claims.ClaimTypes`; a principal is the claims of all its
    identities, in order, which is the order `FindFirst` searches. */
module Claims {
  import opened Errors
  import opened Int32Text

  const NameIdentifierType: string := "http://schemas.xmlsoap.org/ws/2005/05/identity/claims/nameidentifier"
  const NameType: string := "http://schemas.xmlsoap.org/ws/2005/05/identity/claims/name"
  const RoleType: string := "http://schemas.microsoft.com/ws/2008/06/identity/claims/role"

  datatype Claim = Claim(claimType: string, value: string)

  type Principal = seq<Claim>

  predicate HasType(p: Principal, claimType: string) {
    exists i :: 0 <= i < |p| && p[i].claimType == claimType
  }

  /** `FindFirst(c => c.Type == claimType)`: the earliest claim of that
      type, or none. */
  function FindFirst(p: Principal, claimType: string): (r: Option<Claim>)
    ensures r.None? <==> !HasType(p, claimType)
    ensures r.Some? ==> r.value in p && r.value.claimType == claimType
  {
    if p == [] then None
    else if p[0].claimType == claimType then Some(p[0])
    else FindFirst(p[1..], claimType)
  }

  /** The claim found is the earliest of its type: every claim before it
      has another type. */
  lemma {:induction false} FindFirstIsEarliest(p: Principal, claimType: string)
    ensures FindFirst(p, claimType).Some? ==>
              exists i :: 0 <= i < |p| && p[i] == FindFirst(p, claimType).value
                          && forall j :: 0 <= j < i ==> p[j].claimType != claimType
  {
    if p != [] && p[0].claimType != claimType {
      FindFirstIsEarliest(p[1..], claimType);
      if FindFirst(p, claimType).Some? {
        var i :| 0 <= i < |p[1..]| && p[1..][i] == FindFirst(p, claimType).value
                 && forall j :: 0 <= j < i ==> p[1..][j].claimType != claimType;
        assert p[i + 1] == FindFirst(p, claimType).value;
        assert forall j :: 0 <= j < i + 1 ==> p[j].claimType != claimType by {
          forall j | 0 <= j < i + 1
            ensures p[j].claimType != claimType
          {
            if j > 0 {
              assert p[j] == p[1..][j - 1];
            }
          }
        }
      }
    }
  }

  /** Claims placed before the searched ones do not change the answer
      when none of them has the searched type. */
  lemma {:induction false} FindFirstSkips(pre: Principal, p: Principal, claimType: string)
    requires forall i :: 0 <= i < |pre| ==> pre[i].claimType != claimType
    ensures FindFirst(pre + p, claimType) == FindFirst(p, claimType)
  {
    if pre != [] {
      assert (pre + p)[0] == pre[0];
      assert (pre + p)[1..] == pre[1..] + p;
      FindFirstSkips(pre[1..], p, claimType);
    } else {
      assert pre + p == p;
    }
  }

  /** `int.Parse(FindFirst(NameIdentifier).Value)`: a missing claim is a
      null dereference, a bad value a parse error. */
  function NameIdentifierOf(p: Principal): (r: Result<Int32>)
    ensures !HasType(p, NameIdentifierType) <==> r == Err(NullReference)
    ensures HasType(p, NameIdentifierType) ==> r == ParseInt(FindFirst(p, NameIdentifierType).value.value)
  {
    match FindFirst(p, NameIdentifierType)
    case None => Err(NullReference)
    case Some(c) => ParseInt(c.value)
  }
}
