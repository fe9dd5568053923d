/** The authorization decision every check endpoint runs before its body:
    authenticate the bearer token, check company membership, check the access
    level, in that order, each failure with its own error. Token signing and
    verification are a parameter (`TokenCodec`); time is an integer number of
    seconds. */
module Security {
  import opened Outcomes
  import opened CoreSchemas
  import opened CompanyStore
  import Store

  // ----- Access levels ------------------------------------------------------

  /** `role_hierarchy`, keyed by the role's wire value; a value outside the
      enumeration has no rank. */
  function Rank(role: string): (r: Option<int>)
    ensures r.Some? <==> exists a: ApplicationRole :: a.Value() == role
  {
    if role == SuperUser.Value() then Some(100)
    else if role == CompanyAdmin.Value() then Some(50)
    else if role == CompanyUser.Value() then Some(0)
    else None
  }

  /** `AccessRightsLevel.has_required_level`. */
  function HasRequiredLevel(required: ApplicationRole, role: string): (r: Result<bool>)
    ensures Rank(role).None? ==> r == Err(Raised("ValueError", "Role " + role + " not found in role hierarchy"))
    ensures Rank(role).Some? ==> r.Ok? && (r.value <==> Rank(role).value >= Rank(required.Value()).value)
  {
    match Rank(role)
    case None => Err(Raised("ValueError", "Role " + role + " not found in role hierarchy"))
    case Some(n) => Ok(n >= Rank(required.Value()).value)
  }

  /** The intended order on roles, written without numbers: a super user
      passes every level, every role passes the lowest level, and each role
      passes its own. */
  predicate Dominates(role: ApplicationRole, required: ApplicationRole) {
    role == SuperUser || required == CompanyUser || role == required
  }

  /** The numeric ranks implement exactly that order. */
  lemma LevelMatchesOrder(role: ApplicationRole, required: ApplicationRole)
    ensures HasRequiredLevel(required, role.Value()) == Ok(Dominates(role, required))
  {
  }

  /** The level check is reflexive and transitive. */
  lemma LevelIsPreorder(a: ApplicationRole, b: ApplicationRole, c: ApplicationRole)
    ensures HasRequiredLevel(a, a.Value()) == Ok(true)
    ensures HasRequiredLevel(b, a.Value()) == Ok(true) && HasRequiredLevel(c, b.Value()) == Ok(true) ==>
      HasRequiredLevel(c, a.Value()) == Ok(true)
  {
    LevelMatchesOrder(a, a);
    LevelMatchesOrder(a, b);
    LevelMatchesOrder(b, c);
    LevelMatchesOrder(a, c);
  }

  // ----- Applications and membership ----------------------------------------

  /** A row of the applications table. `role` is the stored wire value. */
  datatype Application = Application(clientId: string, role: string, companyId: int)

  const NoCompanyInPath: string := "No company_id in path, contact system admin"

  /** `is_member_of_company`. A super user belongs to every company, even
      with no company in the path; anyone else needs a company in the path
      equal to that of their own company. */
  function IsMemberOfCompany(companies: seq<Company>, app: Application, companyUuid: Option<string>): (r: Result<bool>)
    ensures app.role == SuperUser.Value() ==> r == Ok(true)
    ensures app.role != SuperUser.Value() && !TruthyOpt(companyUuid) ==>
      r == Err(HttpError(InternalServerError, NoCompanyInPath))
    ensures app.role != SuperUser.Value() && TruthyOpt(companyUuid) ==>
      var own := GetCompanyByInternalId(companies, app.companyId);
      && (own.Err? ==> r == Err(own.error))
      && (own.Ok? ==> r == Ok(own.value.uuid == companyUuid.value))
    ensures r == Ok(true) && app.role != SuperUser.Value() ==>
      exists c :: c in companies && c.id == app.companyId && Some(c.uuid) == companyUuid
  {
    if app.role == SuperUser.Value() then Ok(true)
    else if !TruthyOpt(companyUuid) then Err(HttpError(InternalServerError, NoCompanyInPath))
    else
      var own :- GetCompanyByInternalId(companies, app.companyId);
      Ok(own.uuid == companyUuid.value)
  }

  /** With unique company ids, a member that is not a super user belongs to
      exactly one company: the one its own row references. */
  lemma MemberIffOwnCompany(companies: seq<Company>, app: Application, own: Company, u: string)
    requires forall i, j :: 0 <= i < j < |companies| ==> companies[i].id != companies[j].id
    requires own in companies && own.id == app.companyId
    requires app.role != SuperUser.Value() && |u| > 0
    ensures IsMemberOfCompany(companies, app, Some(u)) == Ok(u == own.uuid)
  {
    Store.UniqueMatchFindsOne(companies, (c: Company) => c.id == app.companyId, own);
  }

  // ----- Tokens --------------------------------------------------------------

  /** A claim value of a token payload. */
  datatype Claim = Text(text: string) | Time(seconds: int) | Null

  type Payload = map<string, Claim>

  /** Signing and verification under the configured key and algorithm.
      `decode(token, now)` is `None` for a token that fails verification or
      has expired at `now`. */
  datatype TokenCodec = TokenCodec(encode: Payload -> string, decode: (string, int) -> Option<Payload>)

  /** The library's claim validation accepts a missing `sub` or a string
      one, and raises for any other. */
  predicate ValidSubject(p: Payload) {
    "sub" in p ==> p["sub"].Text?
  }

  /** The claims of the tokens `login_for_access_token` issues. */
  const IssuedClaims: set<string> := {"sub", "exp"}

  /** A signed payload never decodes after its expiry. Until its expiry
      (inclusive), a payload holding only the issued claims decodes to itself
      exactly when its `sub` passes the claim validation. Payloads with other
      claims (`aud`, `nbf`, `iat`, `jti`) are subject to further library
      checks, so nothing is assumed about them before expiry. */
  ghost predicate SoundCodec(codec: TokenCodec) {
    forall p: Payload, now: int {:trigger codec.decode(codec.encode(p), now)} ::
      "exp" in p && p["exp"].Time? ==>
        && (now > p["exp"].seconds ==> codec.decode(codec.encode(p), now) == None)
        && (now <= p["exp"].seconds && p.Keys <= IssuedClaims ==>
              codec.decode(codec.encode(p), now) == (if ValidSubject(p) then Some(p) else None))
  }

  const CouldNotValidate: string := "Could not validate credentials"
  const IncorrectClient: string := "Incorrect client_id or client_secret"

  /** `db_get_application`: lookup by client id; absence is a 401. */
  function GetApplication(apps: seq<Application>, clientId: string): (r: Result<Application>)
    ensures r.Ok? ==> r.value in apps && r.value.clientId == clientId
    ensures r == Err(HttpError(Unauthorized, IncorrectClient)) <==> forall a :: a in apps ==> a.clientId != clientId
  {
    match Store.FindOne(apps, (a: Application) => a.clientId == clientId)
    case NoRow => Err(HttpError(Unauthorized, IncorrectClient))
    case OneRow(a) => Ok(a)
    case ManyRows => Err(Raised("MultipleResultsFound", "Multiple rows were found when one or none was required"))
  }

  /** `get_current_application`: a token that does not verify, whose `sub`
      claim is missing, or whose `sub` is not a string (the library's claim
      check raises its own error, handled like a bad signature), is a 401
      "could not validate"; otherwise the application named by `sub`. */
  function GetCurrentApplication(codec: TokenCodec, apps: seq<Application>, token: string, now: int): (r: Result<Application>)
    ensures codec.decode(token, now).None? ==> r == Err(HttpError(Unauthorized, CouldNotValidate))
    ensures codec.decode(token, now).Some? ==>
      var p := codec.decode(token, now).value;
      && ("sub" !in p || !p["sub"].Text? ==> r == Err(HttpError(Unauthorized, CouldNotValidate)))
      && ("sub" in p && p["sub"].Text? ==> r == GetApplication(apps, p["sub"].text))
    ensures r.Ok? ==> r.value in apps
    ensures r.Err? && r.error.HttpError? ==> r.error.status == Unauthorized
  {
    match codec.decode(token, now)
    case None => Err(HttpError(Unauthorized, CouldNotValidate))
    case Some(p) =>
      if "sub" in p && p["sub"].Text? then GetApplication(apps, p["sub"].text)
      else Err(HttpError(Unauthorized, CouldNotValidate))
  }

  const NotAuthorized: string := "Not authorized"
  const NotEnoughPermissions: string := "Not enough permissions"

  /** `AccessRightsLevel.__call__`: authenticate, then membership, then level. */
  function Authorize(
    required: ApplicationRole, codec: TokenCodec, apps: seq<Application>, companies: seq<Company>,
    token: string, now: int, companyUuid: Option<string>): (r: Result<Application>)
    ensures GetCurrentApplication(codec, apps, token, now).Err? ==>
      r == Err(GetCurrentApplication(codec, apps, token, now).error)
    ensures GetCurrentApplication(codec, apps, token, now).Ok? ==>
      var app := GetCurrentApplication(codec, apps, token, now).value;
      var member := IsMemberOfCompany(companies, app, companyUuid);
      && (member.Err? ==> r == Err(member.error))
      && (member == Ok(false) ==> r == Err(HttpError(Forbidden, NotAuthorized)))
      && (member == Ok(true) ==>
            var level := HasRequiredLevel(required, app.role);
            && (level.Err? ==> r == Err(level.error))
            && (level == Ok(false) ==> r == Err(HttpError(Forbidden, NotEnoughPermissions)))
            && (level == Ok(true) ==> r == Ok(app)))
  {
    var app :- GetCurrentApplication(codec, apps, token, now);
    var member :- IsMemberOfCompany(companies, app, companyUuid);
    if !member then Err(HttpError(Forbidden, NotAuthorized))
    else
      var level :- HasRequiredLevel(required, app.role);
      if !level then Err(HttpError(Forbidden, NotEnoughPermissions))
      else Ok(app)
  }

  /** The application is returned only when all three checks pass. */
  lemma AuthorizedOnlyIfAllPass(
    required: ApplicationRole, codec: TokenCodec, apps: seq<Application>, companies: seq<Company>,
    token: string, now: int, companyUuid: Option<string>)
    requires Authorize(required, codec, apps, companies, token, now, companyUuid).Ok?
    ensures var app := Authorize(required, codec, apps, companies, token, now, companyUuid).value;
      && GetCurrentApplication(codec, apps, token, now) == Ok(app)
      && IsMemberOfCompany(companies, app, companyUuid) == Ok(true)
      && HasRequiredLevel(required, app.role) == Ok(true)
  {
    var app := GetCurrentApplication(codec, apps, token, now).value;
    assert IsMemberOfCompany(companies, app, companyUuid) == Ok(true);
  }

  /** The default lifetime of an access token, in seconds (30 minutes). */
  const DefaultExpireSeconds: int := 30 * 60

  /** `create_access_token`: the payload gains an `exp` claim `now + delta`,
      or `now` plus the default lifetime when `delta` is absent or zero; the
      token and that expiry are returned. */
  function CreateAccessToken(codec: TokenCodec, data: Payload, delta: Option<int>, now: int): (r: (string, int))
    ensures delta.Some? && delta.value != 0 ==> r.1 == now + delta.value
    ensures delta.None? || delta.value == 0 ==> r.1 == now + 1800
    ensures r.0 == codec.encode(data["exp" := Time(r.1)])
  {
    var expire := if delta.Some? && delta.value != 0 then now + delta.value else now + DefaultExpireSeconds;
    (codec.encode(data["exp" := Time(expire)]), expire)
  }

  /** A token issued for a registered client authenticates that client until
      it expires. */
  lemma IssuedTokenAuthenticates(
    codec: TokenCodec, apps: seq<Application>, app: Application, delta: Option<int>, issued: int, now: int)
    requires SoundCodec(codec)
    requires app in apps && forall i, j :: 0 <= i < j < |apps| ==> apps[i].clientId != apps[j].clientId
    requires var (_, expire) := CreateAccessToken(codec, map["sub" := Text(app.clientId)], delta, issued);
      now <= expire
    ensures var (token, _) := CreateAccessToken(codec, map["sub" := Text(app.clientId)], delta, issued);
      GetCurrentApplication(codec, apps, token, now) == Ok(app)
  {
    var (token, expire) := CreateAccessToken(codec, map["sub" := Text(app.clientId)], delta, issued);
    var p := map["sub" := Text(app.clientId)]["exp" := Time(expire)];
    assert p.Keys <= IssuedClaims;
    assert codec.decode(codec.encode(p), now) == Some(p);
    assert p["sub"] == Text(app.clientId);
    Store.UniqueMatchFindsOne(apps, (a: Application) => a.clientId == app.clientId, app);
  }

  /** After its expiry the same token is refused with 401. */
  lemma ExpiredTokenRejected(codec: TokenCodec, apps: seq<Application>, data: Payload, delta: Option<int>, issued: int, now: int)
    requires SoundCodec(codec)
    requires var (_, expire) := CreateAccessToken(codec, data, delta, issued); now > expire
    ensures var (token, _) := CreateAccessToken(codec, data, delta, issued);
      GetCurrentApplication(codec, apps, token, now) == Err(HttpError(Unauthorized, CouldNotValidate))
  {
    var (token, expire) := CreateAccessToken(codec, data, delta, issued);
    var p := data["exp" := Time(expire)];
    assert codec.decode(codec.encode(p), now) == None;
  }

  /** A token whose `sub` is not a string never authenticates, whatever the
      codec and however fresh the token. */
  lemma NonTextSubjectRejected(codec: TokenCodec, apps: seq<Application>, token: string, now: int)
    requires codec.decode(token, now).Some?
    requires var p := codec.decode(token, now).value; "sub" in p && !p["sub"].Text?
    ensures GetCurrentApplication(codec, apps, token, now) == Err(HttpError(Unauthorized, CouldNotValidate))
  {
  }
}
