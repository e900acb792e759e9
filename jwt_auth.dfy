/**
  The JWT middleware of internal/middleware/jwt_auth.go: the Authorization header check,
  token validation through `jwt.Parse`, publication of the identity claims in the request
  context, and `ExtractUserID`. The secret (`JWT_SECRET`) and the clock reading `jwt.Parse`
  uses are parameters.
*/
module Middleware {
  import opened Wrappers
  import opened GoValues
  import opened Jwt
  import opened Http

  const BearerPrefix: string := "Bearer "
  const TokenRequired: string := "Authorization token required"
  const InvalidOrExpired: string := "Invalid or expired token"

  /**
    The middleware's header test: anything that does not start with "Bearer " is refused;
    the token is the rest of the header, which may be empty.
  */
  function HeaderToken(header: string): (r: Option<string>)
    ensures r.Some? <==> |header| >= 7 && header[..7] == BearerPrefix
    ensures r.Some? ==> BearerPrefix + r.value == header
  {
    if header == "" || |header| < 7 || header[..7] != BearerPrefix then None
    else
      assert header == header[..7] + header[7..];
      Some(header[7..])
  }

  /** Indexing a Go map of interface values: a missing key reads as nil. */
  function Lookup(m: map<string, Value>, key: string): (v: Value)
    ensures key !in m ==> v == Nil
    ensures key in m ==> v == m[key]
  {
    if key in m then m[key] else Nil
  }

  /**
    What JWTAuth decides for one request: the 401 reply it aborts with, or the claims of
    the accepted token. Every refusal by `jwt.Parse` gives one and the same reply.
  */
  function Authenticate(header: string, c: Crypto, secret: string, now: int): (r: Result<Claims, Response>)
    ensures HeaderToken(header).None? ==>
      r == Failure(Response(StatusUnauthorized, ErrorJson(TokenRequired)))
    ensures HeaderToken(header).Some? ==>
      && (r.Failure? <==> Parse(c, HeaderToken(header).value, secret, now).Failure?)
      && (r.Failure? ==> r.error == Response(StatusUnauthorized, ErrorJson(InvalidOrExpired)))
      && (r.Success? ==> r.value == Parse(c, HeaderToken(header).value, secret, now).value)
  {
    match HeaderToken(header)
    case None => Failure(Response(StatusUnauthorized, ErrorJson(TokenRequired)))
    case Some(token) =>
      match Parse(c, token, secret, now)
      case Failure(_) => Failure(Response(StatusUnauthorized, ErrorJson(InvalidOrExpired)))
      case Success(claims) => Success(claims)
  }

  /** The context keys JWTAuth publishes from an accepted token's claims. */
  function Published(keys: map<string, Value>, claims: Claims): (r: map<string, Value>)
    ensures r.Keys == keys.Keys + {"user_id", "email", "username"}
    ensures forall k :: k in keys && k !in {"user_id", "email", "username"} ==> r[k] == keys[k]
    ensures r["user_id"] == Lookup(claims, "user_id")
    ensures r["email"] == Lookup(claims, "email")
    ensures r["username"] == Lookup(claims, "username")
  {
    keys["user_id" := Lookup(claims, "user_id")]
        ["email" := Lookup(claims, "email")]
        ["username" := Lookup(claims, "username")]
  }

  /** The part of a `*gin.Context` the handlers use. */
  class GinContext {
    const authorization: string            // c.GetHeader("Authorization"), "" when absent
    var keys: map<string, Value>           // c.Set / c.Get
    var aborted: bool                      // c.IsAborted()
    var reply: Option<Response>            // what c.JSON / AbortWithStatusJSON wrote
    var nextCalled: bool                   // whether c.Next() ran

    constructor (authorization: string)
      ensures this.authorization == authorization
      ensures keys == map[] && !aborted && reply == None && !nextCalled
    {
      this.authorization := authorization;
      keys := map[];
      aborted := false;
      reply := None;
      nextCalled := false;
    }
  }

  /**
    `JWTAuth()` applied to one request. A refused request is aborted with a 401 reply,
    its keys untouched and the chain not continued; an accepted one gets `user_id`,
    `email` and `username` from the token's claims and the chain continues.
  */
  method JWTAuth(ctx: GinContext, c: Crypto, secret: string, now: int)
    modifies ctx
    ensures var a := Authenticate(ctx.authorization, c, secret, now);
      if a.Failure? then
        && ctx.aborted && ctx.reply == Some(a.error)
        && ctx.keys == old(ctx.keys) && ctx.nextCalled == old(ctx.nextCalled)
      else
        && ctx.keys == Published(old(ctx.keys), a.value) && ctx.nextCalled
        && ctx.aborted == old(ctx.aborted) && ctx.reply == old(ctx.reply)
  {
    var header := HeaderToken(ctx.authorization);
    if header.None? {
      ctx.reply := Some(Response(StatusUnauthorized, ErrorJson(TokenRequired)));
      ctx.aborted := true;
      return;
    }
    var token := header.value;
    var parsed := Parse(c, token, secret, now);
    if parsed.Failure? {
      ctx.reply := Some(Response(StatusUnauthorized, ErrorJson(InvalidOrExpired)));
      ctx.aborted := true;
      return;
    }
    var claims := parsed.value;
    ctx.keys := ctx.keys["user_id" := Lookup(claims, "user_id")];
    ctx.keys := ctx.keys["email" := Lookup(claims, "email")];
    ctx.keys := ctx.keys["username" := Lookup(claims, "username")];
    ctx.nextCalled := true;
  }

  /**
    Go's `uint(f)` for a float: the fraction is discarded. Outside the range of uint the
    result is implementation-specific in Go; the model gives 0 there.
  */
  function FloatToUint(x: real): (n: nat)
    ensures 0.0 <= x < TwoTo64 as real ==> n as real <= x < n as real + 1.0 && n < TwoTo64
  {
    if 0.0 <= x < TwoTo64 as real then x.Floor else 0
  }

  /**
    `ExtractUserID`: the `user_id` context value converted to uint, with false when it is
    absent or of a type the switch does not list (int64, string, nil, ...).
  */
  function ExtractUserID(keys: map<string, Value>): (r: (nat, bool))
    ensures !r.1 ==> r.0 == 0
    ensures r.1 <==> ("user_id" in keys && keys["user_id"].IsUintConvertible())
    ensures "user_id" in keys && keys["user_id"].Uint? ==> r.0 == keys["user_id"].n
    ensures "user_id" in keys && keys["user_id"].Int? ==>
      r.0 < TwoTo64 && (r.0 - keys["user_id"].i) % TwoTo64 == 0
  {
    if "user_id" !in keys then (0, false)
    else
      match keys["user_id"]
      case Float64(x) => (FloatToUint(x), true)
      case Float32(x) => (FloatToUint(x), true)
      case Int(i) => (i % TwoTo64, true)
      case Uint(n) => (n, true)
      case _ => (0, false)
  }
}
