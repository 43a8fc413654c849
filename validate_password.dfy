/**
 * The password gate's login endpoint: it checks the submitted password
 * against the configured one and, when they agree, sets an http-only
 * cookie holding a signed token `random:timestamp:signature`.
 *
 * The HMAC-SHA256 digest is a parameter (`Hmac`), as are the 32 random
 * bytes and the clock reading; the handler's writes to `res` become the
 * returned `Response`.
 */
module ValidatePassword {
  import opened Optional
  import opened Text

  const CookieName: string := "dashboard-auth-token"

  /** 24 hours, in seconds. */
  const CookieMaxAge: int := 60 * 60 * 24

  const FallbackSecret: string := "fallback-secret"

  /** The process environment the endpoints read. */
  datatype Env = Env(dashboardPassword: Option<string>, nodeEnv: Option<string>)

  /** `crypto.createHmac('sha256', key).update(data).digest()`: the raw digest bytes. */
  type Hmac = (string, string) -> seq<byte>

  /** `process.env.DASHBOARD_PASSWORD || 'fallback-secret'`: both endpoints sign with this key. */
  function Secret(env: Env): (key: string)
    ensures Truthy(env.dashboardPassword) ==> key == env.dashboardPassword.value
    ensures !Truthy(env.dashboardPassword) ==> key == FallbackSecret
  {
    OrElse(env.dashboardPassword, FallbackSecret)
  }

  /** `.digest('hex')` of the HMAC of `data` under `key`. */
  function Signature(hmac: Hmac, key: string, data: string): (sig: string)
    ensures IsHex(sig)
  {
    HexEncode(hmac(key, data))
  }

  /** `generateToken`: the random bytes in hex, the millisecond clock in decimal, and the signature of both. */
  function GenerateToken(randomBytes: seq<byte>, now: nat, env: Env, hmac: Hmac): string {
    var data := HexEncode(randomBytes) + ":" + NatStr(now);
    data + ":" + Signature(hmac, Secret(env), data)
  }

  /** No hex digit and no decimal digit is the separator, so the three fields of a token split apart again. */
  lemma TokenParts(randomBytes: seq<byte>, now: nat, env: Env, hmac: Hmac)
    ensures Split(GenerateToken(randomBytes, now, env, hmac), ':')
         == [HexEncode(randomBytes), NatStr(now),
             Signature(hmac, Secret(env), HexEncode(randomBytes) + ":" + NatStr(now))]
  {
    var r, t := HexEncode(randomBytes), NatStr(now);
    var s := Signature(hmac, Secret(env), r + ":" + t);
    HexHasNoColon(r);
    HexHasNoColon(s);
    assert ':' !in t by {
      forall i | 0 <= i < |t| ensures t[i] != ':' { assert IsDigit(t[i]); }
    }
    SplitThree(r, t, s, ':');
  }

  lemma HexHasNoColon(s: string)
    requires IsHex(s)
    ensures ':' !in s
  {
    forall i | 0 <= i < |s| ensures s[i] != ':' { assert IsHexChar(s[i]); }
  }

  /**
   * `req.body` as far as the handler reads it: a JSON `null` body, on
   * which destructuring `{ password }` throws; otherwise its `password`,
   * absent (or null), some other JSON value, or a string.
   */
  datatype BodyValue = NullBody | Missing | NotAString | AString(text: string)

  datatype CookieOptions = CookieOptions(httpOnly: bool, secure: bool, sameSite: string, maxAge: int, path: string)

  /** A `Set-Cookie` header before serialisation. */
  datatype SetCookie = SetCookie(name: string, value: string, options: CookieOptions)

  /** The JSON bodies the handler writes, and the framework's own answer to an uncaught exception. */
  datatype Body = ErrorBody(error: string) | SuccessBody(success: bool) | UncaughtError

  datatype Response = Response(status: int, allow: Option<string>, setCookie: Option<SetCookie>, body: Body)

  /** The password is a non-empty string. */
  predicate Submitted(password: BodyValue) {
    password.AString? && password.text != ""
  }

  /** The login `handler`: each guard in turn, then the cookie. */
  function Handle(requestMethod: string, password: BodyValue, env: Env,
                  randomBytes: seq<byte>, now: nat, hmac: Hmac): (r: Response)
    ensures requestMethod != "POST" ==> r == Response(405, Some("POST"), None, ErrorBody("Method not allowed"))
    ensures requestMethod == "POST" && password.NullBody? ==> r == Response(500, None, None, UncaughtError)
    ensures requestMethod == "POST" && !password.NullBody? && !Submitted(password) ==>
      r == Response(400, None, None, ErrorBody("Password is required"))
    ensures requestMethod == "POST" && Submitted(password) && !Truthy(env.dashboardPassword) ==>
      r == Response(500, None, None, ErrorBody("Server configuration error"))
    ensures requestMethod == "POST" && Submitted(password) && Truthy(env.dashboardPassword)
            && password.text != env.dashboardPassword.value ==>
      r == Response(401, None, None, ErrorBody("Invalid password"))
    ensures r.status == 200 <==>
      requestMethod == "POST" && Submitted(password) && Truthy(env.dashboardPassword)
      && password.text == env.dashboardPassword.value
    ensures r.status == 200 ==> r == Response(200, None,
      Some(SetCookie(CookieName, GenerateToken(randomBytes, now, env, hmac),
                     CookieOptions(true, env.nodeEnv == Some("production"), "strict", CookieMaxAge, "/"))),
      SuccessBody(true))
    ensures r.setCookie.Some? <==> r.status == 200
  {
    if requestMethod != "POST" then
      Response(405, Some("POST"), None, ErrorBody("Method not allowed"))
    else if password.NullBody? then
      // `const { password } = req.body` throws; the framework answers 500.
      Response(500, None, None, UncaughtError)
    else if password.Missing? || password.NotAString? || password.text == "" then
      Response(400, None, None, ErrorBody("Password is required"))
    else if !Truthy(env.dashboardPassword) then
      Response(500, None, None, ErrorBody("Server configuration error"))
    else if password.text != env.dashboardPassword.value then
      Response(401, None, None, ErrorBody("Invalid password"))
    else
      var token := GenerateToken(randomBytes, now, env, hmac);
      var cookie := SetCookie(CookieName, token,
        CookieOptions(true, env.nodeEnv == Some("production"), "strict", CookieMaxAge, "/"));
      Response(200, None, Some(cookie), SuccessBody(true))
  }

  /** A cookie is only ever issued for the configured password, and then it is signed with that password. */
  lemma CookieOnlyForCorrectPassword(requestMethod: string, password: BodyValue, env: Env,
                                     randomBytes: seq<byte>, now: nat, hmac: Hmac)
    requires Handle(requestMethod, password, env, randomBytes, now, hmac).setCookie.Some?
    ensures password == AString(env.dashboardPassword.value) && Secret(env) == password.text
  {
  }
}
