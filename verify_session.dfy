/**
 * The password gate's session check: it reads the auth cookie and
 * re-signs the token's first two fields to decide whether the session
 * is authenticated, clearing a cookie that does not verify.
 */
module VerifySession {
  import opened Optional
  import opened Text
  import Login = ValidatePassword

  /** The header that expires the auth cookie. */
  const ClearCookie: string :=
    Login.CookieName + "=; Path=/; Expires=Thu, 01 Jan 1970 00:00:00 GMT; HttpOnly; SameSite=Strict"

  /**
   * `crypto.timingSafeEqual` on the byte buffers of two strings: it throws
   * (`None`) when the lengths differ, and otherwise says whether they agree.
   */
  function TimingSafeEqual(a: string, b: string): (r: Option<bool>)
    ensures r.None? <==> |a| != |b|
    ensures r.Some? ==> (r.value <==> a == b)
  {
    if |a| != |b| then None else Some(a == b)
  }

  /**
   * `verifyToken`: exactly three `:`-separated parts whose third is the
   * signature of the first two; a signature of the wrong length makes the
   * comparison throw, which is caught as `false`.
   */
  function VerifyToken(token: string, env: Login.Env, hmac: Login.Hmac): (ok: bool)
    ensures |Split(token, ':')| != 3 ==> !ok
    ensures |Split(token, ':')| == 3 ==>
      (ok <==> Split(token, ':')[2] == Login.Signature(hmac, Login.Secret(env), Split(token, ':')[0] + ":" + Split(token, ':')[1]))
  {
    var parts := Split(token, ':');
    if |parts| != 3 then false
    else
      var data := parts[0] + ":" + parts[1];
      var eq := TimingSafeEqual(parts[2], Login.Signature(hmac, Login.Secret(env), data));
      eq.Some? && eq.value
  }

  datatype Body = ErrorBody(error: string) | SessionBody(authenticated: bool)

  datatype Response = Response(status: int, allow: Option<string>, setCookie: Option<string>, body: Body)

  /** The session `handler`, given the request's auth cookie if it sent one. */
  function Handle(requestMethod: string, token: Option<string>, env: Login.Env, hmac: Login.Hmac): (r: Response)
    ensures requestMethod != "GET" ==> r == Response(405, Some("GET"), None, ErrorBody("Method not allowed"))
    ensures requestMethod == "GET" ==> r.status == 200 && r.allow.None? && r.body.SessionBody?
    ensures requestMethod == "GET" ==>
      (r.body.authenticated <==> Truthy(token) && VerifyToken(token.value, env, hmac))
    ensures requestMethod == "GET" ==>
      (r.setCookie.Some? <==> Truthy(token) && !VerifyToken(token.value, env, hmac))
    ensures r.setCookie.Some? ==> r.setCookie == Some(ClearCookie)
  {
    if requestMethod != "GET" then
      Response(405, Some("GET"), None, ErrorBody("Method not allowed"))
    else if !Truthy(token) then
      Response(200, None, None, SessionBody(false))
    else if !VerifyToken(token.value, env, hmac) then
      Response(200, None, Some(ClearCookie), SessionBody(false))
    else
      Response(200, None, None, SessionBody(true))
  }

  // ---------------------------------------------------------------------
  // Properties

  /** Every token the login endpoint generates verifies under the same environment. */
  lemma GeneratedTokenVerifies(randomBytes: seq<byte>, now: nat, env: Login.Env, hmac: Login.Hmac)
    ensures VerifyToken(Login.GenerateToken(randomBytes, now, env, hmac), env, hmac)
  {
    Login.TokenParts(randomBytes, now, env, hmac);
  }

  /** A token whose third field is not the signature of the first two is refused. */
  lemma ForgedSignatureRejected(random: string, timestamp: string, signature: string, env: Login.Env, hmac: Login.Hmac)
    requires ':' !in random && ':' !in timestamp && ':' !in signature
    requires signature != Login.Signature(hmac, Login.Secret(env), random + ":" + timestamp)
    ensures !VerifyToken(random + ":" + timestamp + ":" + signature, env, hmac)
  {
    SplitThree(random, timestamp, signature, ':');
  }

  /** A token with fewer or more than two separators is refused, whatever its content. */
  lemma WrongShapeRejected(token: string, env: Login.Env, hmac: Login.Hmac)
    requires Occurrences(token, ':') != 2
    ensures !VerifyToken(token, env, hmac)
  {
    SplitCount(token, ':');
  }

  /** After a successful login, sending the issued cookie back authenticates the session and keeps the cookie. */
  lemma LoginThenSession(password: Login.BodyValue, env: Login.Env, randomBytes: seq<byte>, now: nat, hmac: Login.Hmac)
    requires Login.Handle("POST", password, env, randomBytes, now, hmac).status == 200
    ensures Handle("GET", Some(Login.Handle("POST", password, env, randomBytes, now, hmac).setCookie.value.value),
                   env, hmac)
         == Response(200, None, None, SessionBody(true))
  {
    GeneratedTokenVerifies(randomBytes, now, env, hmac);
    HexEncodeNonEmptyToken(randomBytes, now, env, hmac);
  }

  /** A generated token is never empty, so it is always sent on. */
  lemma HexEncodeNonEmptyToken(randomBytes: seq<byte>, now: nat, env: Login.Env, hmac: Login.Hmac)
    ensures Login.GenerateToken(randomBytes, now, env, hmac) != ""
  {
    assert |Login.GenerateToken(randomBytes, now, env, hmac)| >= 2;
  }
  /**
   * With no password configured the login endpoint issues nothing, yet the
   * session check signs with the fixed fallback key, so a token signed
   * with that key by anyone verifies.
   */
  lemma UnsetPasswordAcceptsFallbackSignature(random: string, timestamp: string, env: Login.Env, hmac: Login.Hmac)
    requires !Truthy(env.dashboardPassword)
    requires ':' !in random && ':' !in timestamp
    ensures VerifyToken(random + ":" + timestamp + ":" + HexEncode(hmac(Login.FallbackSecret, random + ":" + timestamp)),
                        env, hmac)
  {
    var s := HexEncode(hmac(Login.FallbackSecret, random + ":" + timestamp));
    Login.HexHasNoColon(s);
    SplitThree(random, timestamp, s, ':');
  }
}
