/** Login (token issuance) and registration. The users table is a
    sequence in query order, so "first user with this email" is
    meaningful; the permissions table maps a permission id to its name.
    Password hashing and verification are function parameters. */
module UserAccount {
  import opened Errors
  import opened Int32Text
  import opened Claims
  import opened Entities
  import opened Jwt
  import opened UserContext

  const InvalidCredentialsMessage: string := "Invalid email or password."

  datatype PasswordVerificationResult = Failed | Success | SuccessRehashNeeded

  datatype LoginDto = LoginDto(email: string, password: string)

  /** An uploaded form file; only its name matters here. */
  datatype FormFile = FormFile(fileName: string)

  datatype UserRegisterDto = UserRegisterDto(
    email: string,
    password: string,
    firstName: string,
    lastName: string,
    dateOfBirth: int,
    permissionId: Int32,
    userImage: Option<FormFile>)

  /** `Guid.ToString()`: always 36 characters. */
  type GuidText = s: string | |s| == 36 witness "00000000-0000-0000-0000-000000000000"

  /** `VerifyHashedPassword(user, hashedPassword, providedPassword)`. */
  type Verifier = (User, Option<string>, string) -> PasswordVerificationResult

  /** `HashPassword(user, password)`. */
  type Hasher = (User, string) -> string

  predicate HasEmail(users: seq<User>, email: string) {
    exists i :: 0 <= i < |users| && users[i].email == email
  }

  /** `Users.FirstOrDefault(u => u.Email == email)`. */
  function FindByEmail(users: seq<User>, email: string): (r: Option<User>)
    ensures r.None? <==> !HasEmail(users, email)
    ensures r.Some? ==> r.value in users && r.value.email == email
  {
    if users == [] then None
    else if users[0].email == email then Some(users[0])
    else FindByEmail(users[1..], email)
  }

  /** The user found is the earliest with the email: a user at `k` whose
      predecessors all have other emails is the one found. */
  lemma {:induction false} FindByEmailEarliest(users: seq<User>, email: string, k: nat)
    requires k < |users| && users[k].email == email
    requires forall j :: 0 <= j < k ==> users[j].email != email
    ensures FindByEmail(users, email) == Some(users[k])
  {
    if k > 0 {
      assert users[0].email != email;
      FindByEmailEarliest(users[1..], email, k - 1);
    }
  }

  /** Users appended after a matching one never shadow it. */
  lemma {:induction false} FindByEmailAppend(users: seq<User>, more: seq<User>, email: string)
    ensures FindByEmail(users, email).Some? ==> FindByEmail(users + more, email) == FindByEmail(users, email)
    ensures FindByEmail(users, email).None? ==> FindByEmail(users + more, email) == FindByEmail(more, email)
  {
    if users == [] {
      assert users + more == more;
    } else {
      assert (users + more)[0] == users[0];
      assert (users + more)[1..] == users[1..] + more;
      FindByEmailAppend(users[1..], more, email);
    }
  }

  /** The credential check of `GenerateJwt`: the first user with the email,
      whose stored hash verifies the password, together with the name of
      their permission. Unknown email and wrong password fail alike. */
  function Authenticate(users: seq<User>, permissions: map<Int32, string>, login: LoginDto, verify: Verifier)
    : (r: Result<(User, string)>)
    ensures FindByEmail(users, login.email).None? ==> r == Err(BadRequest(InvalidCredentialsMessage))
    ensures FindByEmail(users, login.email).Some?
            && verify(FindByEmail(users, login.email).value, FindByEmail(users, login.email).value.hashedPassword, login.password) == Failed
            ==> r == Err(BadRequest(InvalidCredentialsMessage))
    ensures FindByEmail(users, login.email).Some? ==>
              var u := FindByEmail(users, login.email).value;
              verify(u, u.hashedPassword, login.password) != Failed ==>
                && (r.Ok? <==> u.permissionId in permissions)
                && (u.permissionId !in permissions ==> r == Err(NullReference))
    ensures r.Ok? ==> Some(r.value.0) == FindByEmail(users, login.email)
                      && verify(r.value.0, r.value.0.hashedPassword, login.password) != Failed
                      && r.value.0.permissionId in permissions
                      && r.value.1 == permissions[r.value.0.permissionId]
  {
    match FindByEmail(users, login.email)
    case None => Err(BadRequest(InvalidCredentialsMessage))
    case Some(user) =>
      if verify(user, user.hashedPassword, login.password) == Failed then Err(BadRequest(InvalidCredentialsMessage))
      // `user.Permission.PermissionName` with no permission row
      else if user.permissionId !in permissions then Err(NullReference)
      else Ok((user, permissions[user.permissionId]))
  }

  /** The claims of an issued token, in order. */
  function IssuedClaims(user: User, permissionName: string): (cs: seq<Claim>)
    ensures |cs| == 3
    ensures cs[0].claimType == NameIdentifierType && cs[0].value == FormatInt(user.id)
    ensures ParseInt(cs[0].value) == Ok(user.id)
    ensures cs[1].claimType == NameType && cs[1].value == user.firstName + " " + user.lastName
    ensures cs[2].claimType == RoleType && cs[2].value == permissionName
  {
    FormatParseRoundTrip(user.id);
    [Claim(NameIdentifierType, FormatInt(user.id)),
     Claim(NameType, user.firstName + " " + user.lastName),
     Claim(RoleType, permissionName)]
  }

  /** `GenerateJwt` with the expiry passed as the expiry: issuer and
      audience both `JwtIssuer`, expiry `now` plus `JwtExpireDays` days,
      signed with `JwtKey` under HS256. */
  function GenerateJwt(settings: AuthenticationSettings, users: seq<User>, permissions: map<Int32, string>,
                       login: LoginDto, verify: Verifier, now: int): (r: Result<JwtToken>)
    ensures r.Err? <==> Authenticate(users, permissions, login, verify).Err?
    ensures r.Err? ==> r.error == Authenticate(users, permissions, login, verify).error
    ensures r.Ok? ==> var auth := Authenticate(users, permissions, login, verify).value;
                      && r.value.claims == IssuedClaims(auth.0, auth.1)
                      && r.value.issuer == r.value.audience == settings.jwtIssuer
                      && r.value.expires == Some(AddDays(now, settings.jwtExpireDays))
                      && r.value.notBefore.None?
                      && r.value.credentials == SigningCredentials(settings.jwtKey, HmacSha256)
  {
    var (user, permissionName) :- Authenticate(users, permissions, login, verify);
    Ok(JwtToken(settings.jwtIssuer, settings.jwtIssuer, IssuedClaims(user, permissionName),
                None, Some(AddDays(now, settings.jwtExpireDays)),
                SigningCredentials(settings.jwtKey, HmacSha256)))
  }

  /** `GenerateJwt` as the source writes it: the computed expiry is the
      fourth positional argument of `JwtSecurityToken(issuer, audience,
      claims, notBefore, expires, signingCredentials)`, so it becomes the
      not-before time and the token has no expiry. */
  function GenerateJwtAsWritten(settings: AuthenticationSettings, users: seq<User>, permissions: map<Int32, string>,
                                login: LoginDto, verify: Verifier, now: int): (r: Result<JwtToken>)
    ensures r.Err? <==> Authenticate(users, permissions, login, verify).Err?
    ensures r.Ok? ==> r.value.expires.None?
                      && r.value.notBefore == Some(AddDays(now, settings.jwtExpireDays))
    // the only difference from the corrected issuance is the swapped field
    ensures var fixed := GenerateJwt(settings, users, permissions, login, verify, now);
            r == if fixed.Ok? then Ok(fixed.value.(notBefore := fixed.value.expires, expires := None)) else fixed
  {
    var (user, permissionName) :- Authenticate(users, permissions, login, verify);
    Ok(JwtToken(settings.jwtIssuer, settings.jwtIssuer, IssuedClaims(user, permissionName),
                Some(AddDays(now, settings.jwtExpireDays)), None,
                SigningCredentials(settings.jwtKey, HmacSha256)))
  }

  /** The validator configured for these settings refuses every token the
      source issues, at any time. */
  lemma AsWrittenTokenNeverValidates(settings: AuthenticationSettings, users: seq<User>, permissions: map<Int32, string>,
                                     login: LoginDto, verify: Verifier, now: int, later: int)
    requires Authenticate(users, permissions, login, verify).Ok?
    ensures ValidateToken(ValidationFor(settings), GenerateJwtAsWritten(settings, users, permissions, login, verify, now).value, later)
            == Err(Unauthorized(NoExpiration))
  {
  }

  /** A token signed with the configured key, naming the configured issuer
      as issuer and audience, with an expiry and no not-before, is accepted
      until its expiry plus the clock skew. */
  lemma TokenValidatesUntilExpiry(settings: AuthenticationSettings, token: JwtToken, expires: int, later: int)
    requires token.issuer == token.audience == settings.jwtIssuer && !IsBlank(settings.jwtIssuer)
    requires token.credentials.key == settings.jwtKey
    requires token.expires == Some(expires) && token.notBefore.None?
    requires later <= expires + DefaultClockSkew
    ensures ValidateToken(ValidationFor(settings), token, later) == Ok(token.claims)
  {
  }

  /** The corrected token validates from the moment it is issued until its
      expiry plus the clock skew, and the principal it yields reads back
      the user's id. */
  lemma IssuedTokenRoundTrip(settings: AuthenticationSettings, users: seq<User>, permissions: map<Int32, string>,
                             login: LoginDto, verify: Verifier, now: int, later: int)
    requires Authenticate(users, permissions, login, verify).Ok?
    requires later <= AddDays(now, settings.jwtExpireDays) + DefaultClockSkew
    requires !IsBlank(settings.jwtIssuer)
    ensures var token := GenerateJwt(settings, users, permissions, login, verify, now).value;
            var user := Authenticate(users, permissions, login, verify).value.0;
            && ValidateToken(ValidationFor(settings), token, later) == Ok(token.claims)
            && GetUserId(Some(HttpContext(Some(token.claims)))) == Ok(Some(user.id))
  {
    var token := GenerateJwt(settings, users, permissions, login, verify, now).value;
    var auth := Authenticate(users, permissions, login, verify).value;
    TokenValidatesUntilExpiry(settings, token, AddDays(now, settings.jwtExpireDays), later);
    assert token.claims == IssuedClaims(auth.0, auth.1);
    GetUserIdOfLoginClaims(auth.0, auth.1);
  }

  /** A principal holding exactly the login claims yields the user's id. */
  lemma GetUserIdOfLoginClaims(user: User, permissionName: string)
    ensures GetUserId(Some(HttpContext(Some(IssuedClaims(user, permissionName))))) == Ok(Some(user.id))
  {
    var cs := IssuedClaims(user, permissionName);
    assert FindFirst(cs, NameIdentifierType) == Some(cs[0]);
  }

  /** A principal carrying the login claims after any claims of other types
      (registered claims the token handler adds, say) yields the user's id. */
  lemma {:induction false} GetUserIdOfIssuedClaims(user: User, permissionName: string, pre: seq<Claim>, post: seq<Claim>)
    requires forall i :: 0 <= i < |pre| ==> pre[i].claimType != NameIdentifierType
    ensures GetUserId(Some(HttpContext(Some(pre + IssuedClaims(user, permissionName) + post)))) == Ok(Some(user.id))
  {
    var cs := IssuedClaims(user, permissionName);
    assert pre + cs + post == pre + (cs + post);
    FindFirstSkips(pre, cs + post, NameIdentifierType);
    assert (cs + post)[0] == cs[0];
    assert FindFirst(cs + post, NameIdentifierType) == Some(cs[0]);
    assert ParseInt(cs[0].value) == Ok(user.id);
  }

  /** `UploadedFile`'s name rule: no image, no name; otherwise the guid, an
      underscore and the original file name. */
  function UploadedFile(dto: UserRegisterDto, guid: GuidText): (name: Option<string>)
    ensures name.None? <==> dto.userImage.None?
    ensures name.Some? ==> |name.value| == 37 + |dto.userImage.value.fileName|
                           && name.value[..36] == guid && name.value[36] == '_'
                           && name.value[37..] == dto.userImage.value.fileName
  {
    match dto.userImage
    case None => None
    case Some(image) => Some(guid + "_" + image.fileName)
  }

  /** Two uploads with different guids never share a file name, whatever
      the original names. */
  lemma UploadedNamesDistinct(a: UserRegisterDto, b: UserRegisterDto, g: GuidText, h: GuidText)
    requires g != h
    requires a.userImage.Some? && b.userImage.Some?
    ensures UploadedFile(a, g) != UploadedFile(b, h)
  {
  }

  /** The user record built from the form before the password is hashed. */
  function NewUser(dto: UserRegisterDto, imageUri: Option<string>): User {
    User(0, dto.email, dto.firstName, dto.lastName, dto.dateOfBirth, dto.permissionId, None, imageUri)
  }

  /** `RegisterUser`: exactly one user is added, built from the form, with
      the hash of the password and no trace of the plaintext. The database
      assigns `newId`, an id no existing user has. */
  function RegisterUser(users: seq<User>, dto: UserRegisterDto, guid: GuidText, hash: Hasher, newId: Int32)
    : (r: seq<User>)
    requires forall i :: 0 <= i < |users| ==> users[i].id != newId
    ensures |r| == |users| + 1 && r[..|users|] == users
    ensures var u := r[|users|];
            && u.id == newId
            && u.email == dto.email && u.firstName == dto.firstName && u.lastName == dto.lastName
            && u.dateOfBirth == dto.dateOfBirth && u.permissionId == dto.permissionId
            && u.userImageUri == UploadedFile(dto, guid)
            && u.hashedPassword == Some(hash(NewUser(dto, UploadedFile(dto, guid)), dto.password))
  {
    var draft := NewUser(dto, UploadedFile(dto, guid));
    users + [draft.(id := newId, hashedPassword := Some(hash(draft, dto.password)))]
  }

  /** The password reaches the stored record only through the hasher. */
  lemma RegisterSeesPasswordOnlyThroughHash(users: seq<User>, dto: UserRegisterDto, other: string,
                                            guid: GuidText, hash: Hasher, newId: Int32)
    requires forall i :: 0 <= i < |users| ==> users[i].id != newId
    requires hash(NewUser(dto, UploadedFile(dto, guid)), dto.password) == hash(NewUser(dto, UploadedFile(dto, guid)), other)
    ensures RegisterUser(users, dto, guid, hash, newId) == RegisterUser(users, dto.(password := other), guid, hash, newId)
  {
  }

  /** Registering with a fresh email and logging in with the same
      credentials issues a token for the new user. */
  lemma RegisterThenLogin(settings: AuthenticationSettings, users: seq<User>, permissions: map<Int32, string>,
                          dto: UserRegisterDto, guid: GuidText, hash: Hasher, verify: Verifier, newId: Int32, now: int)
    requires forall i :: 0 <= i < |users| ==> users[i].id != newId
    requires forall i :: 0 <= i < |users| ==> users[i].email != dto.email
    requires dto.permissionId in permissions
    requires var u := RegisterUser(users, dto, guid, hash, newId)[|users|];
             verify(u, u.hashedPassword, dto.password) != Failed
    ensures var token := GenerateJwt(settings, RegisterUser(users, dto, guid, hash, newId), permissions,
                                     LoginDto(dto.email, dto.password), verify, now);
            token.Ok? && ParseInt(token.value.claims[0].value) == Ok(newId)
  {
    var all := RegisterUser(users, dto, guid, hash, newId);
    var u := all[|users|];
    assert all == users + [u];
    FindByEmailAppend(users, [u], dto.email);
  }

  /** Registration does not check that the email is unused: after a second
      account with a taken email, login still finds the earlier one. */
  lemma DuplicateEmailShadowed(users: seq<User>, dto: UserRegisterDto, guid: GuidText, hash: Hasher, newId: Int32)
    requires forall i :: 0 <= i < |users| ==> users[i].id != newId
    requires HasEmail(users, dto.email)
    ensures FindByEmail(RegisterUser(users, dto, guid, hash, newId), dto.email) == FindByEmail(users, dto.email)
    ensures FindByEmail(users, dto.email).value.id != newId
  {
    var all := RegisterUser(users, dto, guid, hash, newId);
    assert all == users + [all[|users|]];
    FindByEmailAppend(users, [all[|users|]], dto.email);
  }
}
