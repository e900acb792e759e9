/**
  The authentication handlers of internal/controllers/auth_controller.go: bearer-token
  extraction, claim parsing, the claim set every minted token carries, token refresh, and
  the Register / Login / RefreshToken / AppleLogin replies. The user service they call is
  a collaborator passed in as a function; the secret and the clock readings are parameters.
*/
module AuthController {
  import opened Wrappers
  import opened GoValues
  import opened Models
  import opened Http
  import opened Jwt
  import opened Middleware

  /** `time.Hour * 24`, in the seconds `Unix()` counts. */
  const TokenLifetime: int := 86400

  const MissingToken: string := "Missing token"
  const InvalidTokenFormat: string := "Invalid token format"
  const InvalidCredentials: string := "Invalid credentials"
  const FailedToExtractUserID: string := "Failed to extract user ID"
  const FailedToGenerateToken: string := "Failed to generate token"

  /** The claim names of every token the handlers mint. */
  const ClaimNames: set<string> := {"user_id", "email", "username", "exp", "iat"}

  // ---------------------------------------------------------------- bearer extraction

  /**
    `extractBearerToken`: an absent header is "Missing token"; a header that is "Bearer "
    followed by at least one character yields that rest; anything else, including
    exactly "Bearer ", is "Invalid token format".
  */
  function ExtractBearerToken(header: string): (r: Result<string, string>)
    ensures header == "" ==> r == Failure(MissingToken)
    ensures header != "" && r.Failure? ==> r.error == InvalidTokenFormat
    ensures r.Success? <==> |header| > 7 && header[..7] == BearerPrefix
    ensures r.Success? ==> BearerPrefix + r.value == header && r.value != ""
  {
    if header == "" then Failure(MissingToken)
    else if |header| > 7 && header[..7] == BearerPrefix then
      assert header == header[..7] + header[7..];
      Success(header[7..])
    else Failure(InvalidTokenFormat)
  }

  /** RFC 6750 section 2.1: "Bearer " followed by a non-empty token gives back that token. */
  lemma {:induction false} BearerRoundTrip(token: string)
    requires token != ""
    ensures ExtractBearerToken(BearerPrefix + token) == Success(token)
  {
    var h := BearerPrefix + token;
    assert h[..7] == BearerPrefix;
    assert h[7..] == token;
  }

  /**
    The middleware's header check and `extractBearerToken` agree on every header except
    exactly "Bearer ", which the middleware passes on as an empty token and
    `extractBearerToken` refuses.
  */
  lemma {:induction false} HeaderChecksDisagreeOnlyOnBareBearer(header: string)
    ensures HeaderToken(BearerPrefix) == Some("")
    ensures ExtractBearerToken(BearerPrefix) == Failure(InvalidTokenFormat)
    ensures header != BearerPrefix ==>
      && (HeaderToken(header).Some? <==> ExtractBearerToken(header).Success?)
      && (HeaderToken(header).Some? ==> HeaderToken(header).value == ExtractBearerToken(header).value)
  {
    assert BearerPrefix[..7] == BearerPrefix;
    if header != BearerPrefix && |header| == 7 {
      assert header[..7] == header;
    }
  }

  // ---------------------------------------------------------------- claims

  /**
    `parseJWTClaims`: the claims of a token `jwt.Parse` accepts; every refusal, whatever
    its cause, is the single error "Invalid or expired token".
  */
  function ParseJwtClaims(c: Crypto, token: string, secret: string, now: int): (r: Result<Claims, string>)
    ensures r.Failure? ==> r.error == InvalidOrExpired
    ensures r.Success? <==> Parse(c, token, secret, now).Success?
    ensures r.Success? ==> r.value == Parse(c, token, secret, now).value
  {
    match Parse(c, token, secret, now)
    case Failure(_) => Failure(InvalidOrExpired)
    case Success(claims) => Success(claims)
  }

  /**
    The claim map every handler signs. `exp` and `iat` each come from their own
    `time.Now()` call: `expClock` is the first reading, `iatClock` the second.
  */
  function IdentityClaims(userID: Value, email: Value, username: Value, expClock: int, iatClock: int): Claims
  {
    map["user_id" := userID, "email" := email, "username" := username,
        "exp" := Int64(expClock + TokenLifetime), "iat" := Int64(iatClock)]
  }

  /**
    A minted claim set has exactly the five claims; the identity claims are the given
    values; `exp` is 24 hours after the first clock reading, so `exp = iat + 86400` when
    both readings agree (RFC 7519 sections 4.1.4 and 4.1.6).
  */
  lemma MintedClaimsShape(userID: Value, email: Value, username: Value, expClock: int, iatClock: int)
    ensures var m := IdentityClaims(userID, email, username, expClock, iatClock);
      && m.Keys == ClaimNames
      && m["user_id"] == userID && m["email"] == email && m["username"] == username
      && m["exp"].Int64? && m["iat"].Int64?
      && m["exp"].i - m["iat"].i == TokenLifetime + (expClock - iatClock)
      && (expClock == iatClock ==> m["exp"].i == m["iat"].i + TokenLifetime)
  {
    var m := IdentityClaims(userID, email, username, expClock, iatClock);
    assert m.Keys == ClaimNames;
  }

  /** The claims `generateJWTToken` signs: the three identity claims of `claims` and fresh times. */
  function RefreshedClaims(claims: Claims, expClock: int, iatClock: int): Claims
  {
    IdentityClaims(Lookup(claims, "user_id"), Lookup(claims, "email"), Lookup(claims, "username"),
                   expClock, iatClock)
  }

  /**
    Refreshing copies `user_id`, `email` and `username` unchanged (nil when absent), drops
    every other claim, and replaces the old `exp` and `iat` by ones from the new readings.
  */
  lemma RefreshCopiesIdentityOnly(claims: Claims, expClock: int, iatClock: int)
    ensures var r := RefreshedClaims(claims, expClock, iatClock);
      && r.Keys == ClaimNames
      && (forall k :: k in claims && k !in ClaimNames ==> k !in r)
      && (forall k :: k in {"user_id", "email", "username"} ==> r[k] == Lookup(claims, k))
      && r["exp"] == Int64(expClock + TokenLifetime) && r["iat"] == Int64(iatClock)
  {
    var r := RefreshedClaims(claims, expClock, iatClock);
    assert r.Keys == ClaimNames;
  }

  /** `generateJWTToken`: sign the refreshed claims with HS256 under `secret`. */
  function GenerateJwtToken(c: Crypto, claims: Claims, secret: string, expClock: int, iatClock: int)
    : (r: Result<string, string>)
    ensures r.Success? <==> SignedString(c, HS256, RefreshedClaims(claims, expClock, iatClock), secret).Success?
    ensures r.Success? ==> r == SignedString(c, HS256, RefreshedClaims(claims, expClock, iatClock), secret)
  {
    SignedString(c, HS256, RefreshedClaims(claims, expClock, iatClock), secret)
  }

  /** The claims Register, Login and AppleLogin sign for a user record. */
  function UserClaims(u: User, expClock: int, iatClock: int): Claims
  {
    IdentityClaims(Uint(u.id), Str(u.email), Str(u.username), expClock, iatClock)
  }

  /** The token Register, Login and AppleLogin mint for `u`. */
  function IssueFor(c: Crypto, secret: string, u: User, expClock: int, iatClock: int): Result<string, string>
  {
    SignedString(c, HS256, UserClaims(u, expClock, iatClock), secret)
  }

  /**
    A token minted for `u` from one clock reading `t`, presented as a bearer header before
    `t + 24h`, passes the middleware; the context then holds the user's email and username,
    and `ExtractUserID` gives back the user's id. The JSON number comes back as a float64,
    which holds the id exactly only up to 2^53.
  */
  lemma IssuedTokenIdentifiesUser(c: Crypto, secret: string, u: User, t: int, now: int, keys: map<string, Value>)
    requires u.id <= TwoTo53
    requires c.hmac(HS256, c.segments(HS256, UserClaims(u, t, t)), secret).Some?
    requires RoundTrips(c, HS256, UserClaims(u, t, t), c.hmac(HS256, c.segments(HS256, UserClaims(u, t, t)), secret).value)
    requires now < t + TokenLifetime
    ensures IssueFor(c, secret, u, t, t).Success?
    ensures var a := Authenticate(BearerPrefix + IssueFor(c, secret, u, t, t).value, c, secret, now);
      && a == Success(JsonDecodedMap(UserClaims(u, t, t)))
      && ExtractUserID(Published(keys, a.value)) == (u.id, true)
      && Published(keys, a.value)["email"] == Str(u.email)
      && Published(keys, a.value)["username"] == Str(u.username)
  {
    var claims := UserClaims(u, t, t);
    var decoded := JsonDecodedMap(claims);
    assert decoded["exp"] == Float64((t + TokenLifetime) as real);
    assert "nbf" !in decoded;
    IssueThenParse(c, HS256, claims, secret, now);
    var token := IssueFor(c, secret, u, t, t).value;
    assert HeaderToken(BearerPrefix + token) == Some(token) by {
      assert (BearerPrefix + token)[..7] == BearerPrefix;
      assert (BearerPrefix + token)[7..] == token;
    }
    assert decoded["user_id"] == Float64(u.id as real);
    assert FloatToUint(u.id as real) == u.id;
  }

  // ---------------------------------------------------------------- handlers

  datatype RegisterRequest = RegisterRequest(email: string, username: string, password: string)
  datatype LoginRequest = LoginRequest(email: string, password: string)
  datatype AppleLoginRequest = AppleLoginRequest(identityToken: string, userID: string, email: string, username: string)

  /**
    The user-service calls: `CreateUser`, `VerifyUserCredentials`, `CreateAppleUser`. Each
    returns `(*models.User, error)`; `Success(None)` is the `(nil, nil)` pair, after which
    the handlers dereference the nil user, panic, and gin.Recovery writes a bodiless 500.
  */
  type CreateUserFn = (string, string, string) -> Result<Option<User>, string>
  type VerifyCredentialsFn = (string, string) -> Result<Option<User>, string>
  type CreateAppleUserFn = (string, string, string) -> Result<Option<User>, string>

  /**
    `Register`. `req` is the outcome of `ShouldBindJSON`. A service error is a 400 with its
    message; a signing error a 500 with its message; a created user gets 201 with its
    public view and a token minted for it.
  */
  function Register(req: Result<RegisterRequest, string>, createUser: CreateUserFn,
                    c: Crypto, secret: string, expClock: int, iatClock: int): (r: Response)
    ensures req.Failure? ==> r == Response(StatusBadRequest, ErrorJson(req.error))
    ensures req.Success? ==>
      var created := createUser(req.value.email, req.value.username, req.value.password);
      && (created.Failure? ==> r == Response(StatusBadRequest, ErrorJson(created.error)))
      && (created == Success(None) ==> r == Response(StatusInternalServerError, NoBody))
      && (created.Success? && created.value.Some? && IssueFor(c, secret, created.value.value, expClock, iatClock).Failure? ==>
            r == Response(StatusInternalServerError, ErrorJson(IssueFor(c, secret, created.value.value, expClock, iatClock).error)))
      && (r.status == StatusCreated <==>
            created.Success? && created.value.Some? && IssueFor(c, secret, created.value.value, expClock, iatClock).Success?)
      && (r.status == StatusCreated ==>
            r.body == UserWithToken(PublicView(created.value.value), IssueFor(c, secret, created.value.value, expClock, iatClock).value))
  {
    match req
    case Failure(e) => Response(StatusBadRequest, ErrorJson(e))
    case Success(rq) =>
      match createUser(rq.email, rq.username, rq.password)
      case Failure(e) => Response(StatusBadRequest, ErrorJson(e))
      case Success(None) => Response(StatusInternalServerError, NoBody)
      case Success(Some(u)) =>
        match IssueFor(c, secret, u, expClock, iatClock)
        case Failure(e) => Response(StatusInternalServerError, ErrorJson(e))
        case Success(token) => Response(StatusCreated, UserWithToken(PublicView(u), token))
  }

  /**
    `Login`. Every error of the credential check becomes the same 401 "Invalid
    credentials"; a signing error is a 500 with its message; a verified user gets 200 with
    its view and a token minted for it.
  */
  function Login(req: Result<LoginRequest, string>, verify: VerifyCredentialsFn,
                 c: Crypto, secret: string, expClock: int, iatClock: int): (r: Response)
    ensures req.Failure? ==> r == Response(StatusBadRequest, ErrorJson(req.error))
    ensures req.Success? ==>
      var found := verify(req.value.email, req.value.password);
      && (found.Failure? ==> r == Response(StatusUnauthorized, ErrorJson(InvalidCredentials)))
      && (found == Success(None) ==> r == Response(StatusInternalServerError, NoBody))
      && (found.Success? && found.value.Some? && IssueFor(c, secret, found.value.value, expClock, iatClock).Failure? ==>
            r == Response(StatusInternalServerError, ErrorJson(IssueFor(c, secret, found.value.value, expClock, iatClock).error)))
      && (r.status == StatusOK <==>
            found.Success? && found.value.Some? && IssueFor(c, secret, found.value.value, expClock, iatClock).Success?)
      && (r.status == StatusOK ==>
            r.body == UserWithToken(PublicView(found.value.value), IssueFor(c, secret, found.value.value, expClock, iatClock).value))
  {
    match req
    case Failure(e) => Response(StatusBadRequest, ErrorJson(e))
    case Success(rq) =>
      match verify(rq.email, rq.password)
      case Failure(_) => Response(StatusUnauthorized, ErrorJson(InvalidCredentials))
      case Success(None) => Response(StatusInternalServerError, NoBody)
      case Success(Some(u)) =>
        match IssueFor(c, secret, u, expClock, iatClock)
        case Failure(e) => Response(StatusInternalServerError, ErrorJson(e))
        case Success(token) => Response(StatusOK, UserWithToken(PublicView(u), token))
  }

  /**
    The username `AppleLogin` passes on: the requested one when non-empty, otherwise
    "user_" and the first eight bytes of the Apple user id. A Go slice counts UTF-8 bytes,
    so an id shorter than eight bytes panics (None); the name keeps the characters that lie
    wholly within those eight bytes.
  */
  function DefaultUsername(username: string, userID: string): (r: Option<string>)
    ensures username != "" ==> r == Some(username)
    ensures username == "" ==> (r.Some? <==> Utf8Length(userID) >= 8)
    ensures username == "" && r.Some? ==>
      && |r.value| >= 5 && r.value[..5] == "user_"
      && r.value[5..] <= userID && Utf8Length(r.value[5..]) <= 8
      && (r.value[5..] == userID || Utf8Length(r.value[5..]) + Utf8Width(userID[|r.value| - 5]) > 8)
    ensures r.Some? ==> r.value != ""
  {
    if username != "" then Some(username)
    else if Utf8Length(userID) < 8 then None
    else
      var kept := CharsWithinBytes(userID, 8);
      assert ("user_" + kept)[5..] == kept;
      Some("user_" + kept)
  }

  /** For an ASCII Apple id, bytes are characters: the default name is "user_" and its first eight. */
  lemma AsciiDefaultUsername(userID: string)
    requires IsAscii(userID)
    ensures DefaultUsername("", userID).Some? <==> |userID| >= 8
    ensures |userID| >= 8 ==> DefaultUsername("", userID) == Some("user_" + userID[..8])
  {
    AsciiBytesAreChars(userID, 8);
  }

  /**
    Multi-byte ids: "éééé" is four characters but eight bytes, so it does not panic and is
    kept whole; "ééé" is six bytes and panics.
  */
  lemma MultiByteDefaultUsername()
    ensures DefaultUsername("", "éééé") == Some("user_éééé")
    ensures DefaultUsername("", "ééé") == None
  {
    assert Utf8Width('é') == 2;
    assert Utf8Length("ééé") == 6;
    assert Utf8Length("éééé") == 8;
    assert CharsWithinBytes("éééé", 8) == "éééé";
    assert "user_" + "éééé" == "user_éééé";
  }

  /**
    `AppleLogin`. A default-username panic, like a nil user, is caught by gin.Recovery as
    a bodiless 500;
    a service error is a 500 with its message; a signing error a 500 "Failed to generate
    token"; otherwise 200 with the user's view and a token minted for it.
  */
  function AppleLogin(req: Result<AppleLoginRequest, string>, createAppleUser: CreateAppleUserFn,
                      c: Crypto, secret: string, expClock: int, iatClock: int): (r: Response)
    ensures req.Failure? ==> r == Response(StatusBadRequest, ErrorJson(req.error))
    ensures req.Success? && DefaultUsername(req.value.username, req.value.userID).None? ==>
      r == Response(StatusInternalServerError, NoBody)
    ensures req.Success? && DefaultUsername(req.value.username, req.value.userID).Some? ==>
      var u := createAppleUser(req.value.userID, req.value.email,
                               DefaultUsername(req.value.username, req.value.userID).value);
      && (u.Failure? ==> r == Response(StatusInternalServerError, ErrorJson(u.error)))
      && (u == Success(None) ==> r == Response(StatusInternalServerError, NoBody))
      && (u.Success? && u.value.Some? && IssueFor(c, secret, u.value.value, expClock, iatClock).Failure? ==>
            r == Response(StatusInternalServerError, ErrorJson(FailedToGenerateToken)))
      && (r.status == StatusOK <==>
            u.Success? && u.value.Some? && IssueFor(c, secret, u.value.value, expClock, iatClock).Success?)
      && (r.status == StatusOK ==>
            r.body == UserWithToken(PublicView(u.value.value), IssueFor(c, secret, u.value.value, expClock, iatClock).value))
  {
    match req
    case Failure(e) => Response(StatusBadRequest, ErrorJson(e))
    case Success(rq) =>
      match DefaultUsername(rq.username, rq.userID)
      case None => Response(StatusInternalServerError, NoBody)
      case Some(name) =>
        match createAppleUser(rq.userID, rq.email, name)
        case Failure(e) => Response(StatusInternalServerError, ErrorJson(e))
        case Success(None) => Response(StatusInternalServerError, NoBody)
        case Success(Some(u)) =>
          match IssueFor(c, secret, u, expClock, iatClock)
          case Failure(_) => Response(StatusInternalServerError, ErrorJson(FailedToGenerateToken))
          case Success(token) => Response(StatusOK, UserWithToken(PublicView(u), token))
  }

  /**
    The reply `RefreshToken` writes, given the request's Authorization header and the
    context keys before the middleware ran. The new token carries the uint user id
    `ExtractUserID` recovered, the context's email and username, and fresh times.
  */
  function RefreshReply(header: string, keys: map<string, Value>, c: Crypto, secret: string,
                        now: int, expClock: int, iatClock: int): Response
  {
    match Authenticate(header, c, secret, now)
    case Failure(refusal) => refusal
    case Success(claims) =>
      var published := Published(keys, claims);
      var (userID, ok) := ExtractUserID(published);
      if !ok then Response(StatusUnauthorized, ErrorJson(FailedToExtractUserID))
      else
        var renewed := IdentityClaims(Uint(userID), Lookup(published, "email"), Lookup(published, "username"),
                                    expClock, iatClock);
        match SignedString(c, HS256, renewed, secret)
        case Failure(_) => Response(StatusInternalServerError, ErrorJson(FailedToGenerateToken))
        case Success(token) => Response(StatusOK, TokenJson(token))
  }

  /**
    `RefreshToken`: run the middleware inline; stop if it aborted; otherwise reply as
    `RefreshReply` says. The context keys are what the middleware left.
  */
  method RefreshToken(ctx: GinContext, c: Crypto, secret: string, now: int, expClock: int, iatClock: int)
    requires !ctx.aborted
    modifies ctx
    ensures ctx.reply == Some(RefreshReply(ctx.authorization, old(ctx.keys), c, secret, now, expClock, iatClock))
    ensures var a := Authenticate(ctx.authorization, c, secret, now);
      && (a.Failure? ==> ctx.aborted && ctx.keys == old(ctx.keys))
      && (a.Success? ==> !ctx.aborted && ctx.keys == Published(old(ctx.keys), a.value))
  {
    JWTAuth(ctx, c, secret, now);
    if ctx.aborted {
      return;
    }
    var (userID, ok) := ExtractUserID(ctx.keys);
    if !ok {
      ctx.reply := Some(Response(StatusUnauthorized, ErrorJson(FailedToExtractUserID)));
      return;
    }
    var email := Lookup(ctx.keys, "email");
    var username := Lookup(ctx.keys, "username");
    var signed := SignedString(c, HS256, IdentityClaims(Uint(userID), email, username, expClock, iatClock), secret);
    if signed.Failure? {
      ctx.reply := Some(Response(StatusInternalServerError, ErrorJson(FailedToGenerateToken)));
      return;
    }
    ctx.reply := Some(Response(StatusOK, TokenJson(signed.value)));
  }

  /**
    Refreshing a live token minted for `u` yields a 200 whose token is the one minted for
    `u` from the new clock readings: same identity, renewed `exp` and `iat`.
  */
  lemma RefreshKeepsIdentity(c: Crypto, secret: string, u: User, t: int, now: int,
                             keys: map<string, Value>, expClock: int, iatClock: int)
    requires u.id <= TwoTo53
    requires c.hmac(HS256, c.segments(HS256, UserClaims(u, t, t)), secret).Some?
    requires RoundTrips(c, HS256, UserClaims(u, t, t), c.hmac(HS256, c.segments(HS256, UserClaims(u, t, t)), secret).value)
    requires now < t + TokenLifetime
    requires IssueFor(c, secret, u, expClock, iatClock).Success?
    ensures IssueFor(c, secret, u, t, t).Success?
    ensures RefreshReply(BearerPrefix + IssueFor(c, secret, u, t, t).value, keys, c, secret, now, expClock, iatClock)
      == Response(StatusOK, TokenJson(IssueFor(c, secret, u, expClock, iatClock).value))
  {
    IssuedTokenIdentifiesUser(c, secret, u, t, now, keys);
  }
}
