/**
  The slice of the golang-jwt library the handlers rely on, with its cryptography and its
  base64url/JSON codec left abstract: a `Crypto` value bundles them as functions. What is
  modelled is the order of the checks `jwt.Parse` makes and what `SignedString` produces.
  Compact serialisation and HMAC are defined by RFC 7515 and RFC 7518; HS256 is the
  algorithm of section 3.2 of RFC 7518.
*/
module Jwt {
  import opened Wrappers
  import opened GoValues

  /** `jwt.MapClaims`. */
  type Claims = map<string, Value>

  /** The `alg` header values the library registers. */
  datatype Method =
    | HS256 | HS384 | HS512      // *jwt.SigningMethodHMAC
    | RS256 | RS384 | RS512 | PS256 | PS384 | PS512
    | ES256 | ES384 | ES512 | EdDSA
    | NoSignature                // "none"
    | Unavailable(alg: string)   // an `alg` the library does not register, or none at all

  /** The type assertion `token.Method.(*jwt.SigningMethodHMAC)`. */
  predicate IsHmac(m: Method)
  {
    m.HS256? || m.HS384? || m.HS512?
  }

  /** A token string split and decoded: header algorithm, claims, the signed text and the signature. */
  datatype Decoded = Decoded(alg: Method, claims: Claims, signingString: string, signature: string)

  datatype Crypto = Crypto(
    segments: (Method, Claims) -> string,        // base64url(header) "." base64url(JSON claims)
    join: (string, string) -> string,            // signing string "." base64url(signature)
    decode: string -> Option<Decoded>,           // None: not three segments, bad base64 or JSON
    hmac: (Method, string, string) -> Option<string>)  // MAC of a signing string under a key; None: signer error

  /**
    The codec is faithful on one token: decoding what `join` produced gives back the method,
    the claims as JSON decoding returns them, the signed text and the signature.
  */
  ghost predicate RoundTrips(c: Crypto, m: Method, claims: Claims, sig: string)
  {
    c.decode(c.join(c.segments(m, claims), sig))
      == Some(Decoded(m, JsonDecodedMap(claims), c.segments(m, claims), sig))
  }

  /** `jwt.NewWithClaims(m, claims).SignedString(secret)`. */
  function SignedString(c: Crypto, m: Method, claims: Claims, secret: string): (r: Result<string, string>)
    ensures r.Success? <==> c.hmac(m, c.segments(m, claims), secret).Some?
    ensures r.Success? ==> r.value == c.join(c.segments(m, claims), c.hmac(m, c.segments(m, claims), secret).value)
  {
    var text := c.segments(m, claims);
    match c.hmac(m, text, secret)
    case None => Failure("signing failed")
    case Some(sig) => Success(c.join(text, sig))
  }

  /** Why `jwt.Parse` refused a token. */
  datatype ParseError =
    | Malformed          // ErrTokenMalformed
    | Unverifiable       // ErrTokenUnverifiable: unregistered alg, or the key function returned an error
    | SignatureInvalid   // ErrTokenSignatureInvalid
    | InvalidClaims      // ErrTokenInvalidClaims: expired, not yet valid, or a time claim of the wrong type

  /**
    The registered time claims the default validator checks at time `now`, the clock reading
    in whole Unix seconds. Both are optional; a present one must be a JSON number. A number
    is read as a date truncated to whole seconds, and the number 0 is read as "no date".
    `exp` (RFC 7519 section 4.1.4) must lie after `now`; `nbf` (section 4.1.5) must not.
  */
  predicate TimeValid(claims: Claims, now: int)
  {
    && ("exp" in claims ==> claims["exp"].Float64? && (claims["exp"].x == 0.0 || now < claims["exp"].x.Floor))
    && ("nbf" in claims ==> claims["nbf"].Float64? && (claims["nbf"].x == 0.0 || claims["nbf"].x.Floor <= now))
  }

  /**
    `jwt.Parse(token, keyFunc)` with the key function both jwt_auth.go and auth_controller.go
    pass: it refuses every method that is not HMAC and otherwise returns `secret`. A token
    is accepted only if it decodes, names an HMAC method, its signature is the MAC of its
    signed text under `secret`, and its time claims hold at `now`.
  */
  function Parse(c: Crypto, token: string, secret: string, now: int): (r: Result<Claims, ParseError>)
    ensures r.Success? ==>
      && c.decode(token).Some?
      && IsHmac(c.decode(token).value.alg)
      && c.hmac(c.decode(token).value.alg, c.decode(token).value.signingString, secret)
           == Some(c.decode(token).value.signature)
      && TimeValid(c.decode(token).value.claims, now)
      && r.value == c.decode(token).value.claims
    ensures c.decode(token).None? ==> r == Failure(Malformed)
    ensures c.decode(token).Some? && !IsHmac(c.decode(token).value.alg) ==> r == Failure(Unverifiable)
  {
    match c.decode(token)
    case None => Failure(Malformed)
    case Some(d) =>
      if !IsHmac(d.alg) then Failure(Unverifiable)
      else if c.hmac(d.alg, d.signingString, secret) != Some(d.signature) then Failure(SignatureInvalid)
      else if !TimeValid(d.claims, now) then Failure(InvalidClaims)
      else Success(d.claims)
  }

  /**
    Issue then parse: a token signed with an HMAC method under `secret` is accepted under
    the same secret while its time claims hold, and yields its claims as JSON decoding
    returns them.
  */
  lemma IssueThenParse(c: Crypto, m: Method, claims: Claims, secret: string, now: int)
    requires IsHmac(m)
    requires c.hmac(m, c.segments(m, claims), secret).Some?
    requires RoundTrips(c, m, claims, c.hmac(m, c.segments(m, claims), secret).value)
    requires TimeValid(JsonDecodedMap(claims), now)
    ensures SignedString(c, m, claims, secret).Success?
    ensures Parse(c, SignedString(c, m, claims, secret).value, secret, now) == Success(JsonDecodedMap(claims))
  {
  }

  /** A token whose signature is not the MAC of its signed text under `secret` is refused. */
  lemma TamperedTokenRefused(c: Crypto, token: string, secret: string, now: int)
    requires c.decode(token).Some?
    requires var d := c.decode(token).value;
      c.hmac(d.alg, d.signingString, secret) != Some(d.signature)
    ensures Parse(c, token, secret, now).Failure?
  {
  }

  /**
    A token whose non-zero `exp`, truncated to whole seconds, is not after `now` is refused,
    whatever its signature.
  */
  lemma ExpiredTokenRefused(c: Crypto, token: string, secret: string, now: int)
    requires c.decode(token).Some?
    requires var d := c.decode(token).value;
      "exp" in d.claims && d.claims["exp"].Float64? && d.claims["exp"].x != 0.0 && d.claims["exp"].x.Floor <= now
    ensures Parse(c, token, secret, now).Failure?
  {
  }

  /**
    An `exp` of 0 is no expiry at all: a correctly signed HMAC token whose only time claim
    is `"exp": 0` is accepted at every `now`.
  */
  lemma ZeroExpNeverExpires(c: Crypto, token: string, secret: string, now: int)
    requires c.decode(token).Some?
    requires var d := c.decode(token).value;
      && IsHmac(d.alg) && c.hmac(d.alg, d.signingString, secret) == Some(d.signature)
      && "exp" in d.claims && d.claims["exp"] == Float64(0.0) && "nbf" !in d.claims
    ensures Parse(c, token, secret, now) == Success(c.decode(token).value.claims)
  {
  }
}
