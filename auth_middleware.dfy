/** `authMiddleware.js`: reading the session token from the cookie or the `Authorization`
    header, authenticating its user, and the role and verification gates. Verifying the
    token's signature is the parameter `verify`. */
module AuthMiddleware {
  import opened Common
  import opened Text
  import opened Records
  import opened Store

  const BearerPrefix: string := "Bearer"

  /** The payload login signs into a token. */
  datatype Claims = Claims(userId: Id, email: string, verified: bool, role: Role)

  /** What `jwt.verify` yields: the payload, or the error it throws (`TokenExpiredError`,
      `JsonWebTokenError`, `NotBeforeError`). */
  datatype JwtOutcome = Decoded(claims: Claims) | TokenExpired | TokenMalformed | TokenNotActive

  /** `req.user` as `verifyToken` sets it. */
  datatype AuthUser = AuthUser(userId: Id, name: Option<string>, email: string, role: Role, verified: bool)

  /** The middleware either answers the request or passes it on with `req.user` set. */
  datatype AuthOutcome = Denied(reply: Reply) | Authenticated(user: AuthUser)

  // ---------------------------------------------------------------------------
  // the token

  /** `header.split(' ')[1]`: undefined when the header has no space. */
  function SecondWord(h: string): Option<string>
  {
    var parts := Split(h, ' ');
    if |parts| >= 2 then Some(parts[1]) else None
  }

  /** The token before the prefix check: the cookie when it is truthy, else the header,
      taking the word after its first space when it starts with `Bearer`. */
  function RawToken(cookie: Option<string>, header: Option<string>): Option<string>
  {
    if !Truthy(cookie) && Truthy(header) then
      (if StartsWith(header.value, BearerPrefix) then SecondWord(header.value) else header)
    else cookie
  }

  /** The string handed to `jwt.verify`, or `None` when there is no token: a token that
      still starts with `Bearer` loses those six characters. */
  function ExtractToken(cookie: Option<string>, header: Option<string>): Option<string>
  {
    var t := RawToken(cookie, header);
    if !Truthy(t) then None
    else if StartsWith(t.value, BearerPrefix) then Some(t.value[|BearerPrefix|..]) else t
  }

  /** The cookie login sets, `'Bearer' + token`, yields that token, whatever the header. */
  lemma CookieRoundTrip(token: string, header: Option<string>)
    ensures ExtractToken(Some(BearerPrefix + token), header) == Some(token)
  {
    var c := BearerPrefix + token;
    assert StartsWith(c, BearerPrefix);
    assert c[|BearerPrefix|..] == token;
  }

  /** A truthy cookie decides alone: the header is not read. */
  lemma CookieWins(cookie: Option<string>, h1: Option<string>, h2: Option<string>)
    requires Truthy(cookie)
    ensures ExtractToken(cookie, h1) == ExtractToken(cookie, h2)
  {
  }

  /** Without a cookie, `Authorization: Bearer <token>` yields the token, when the token has
      no space and does not itself start with `Bearer`. */
  lemma HeaderRoundTrip(token: string)
    requires token != "" && ' ' !in token && !StartsWith(token, BearerPrefix)
    ensures ExtractToken(None, Some(BearerPrefix + " " + token)) == Some(token)
  {
    var h := BearerPrefix + " " + token;
    assert h == BearerPrefix + [' '] + token;
    assert StartsWith(h, BearerPrefix);
    assert ' ' !in BearerPrefix;
    SplitAfterFirst(BearerPrefix, token, ' ');
    SplitWithoutSeparator(token, ' ');
  }

  /** Without a cookie, `Bearer<token>` with no space is no token at all, and a header
      without the prefix is taken whole. */
  lemma HeaderForms(token: string, h: string)
    requires ' ' !in token
    ensures ExtractToken(None, Some(BearerPrefix + token)) == None
    ensures h != "" && !StartsWith(h, BearerPrefix) ==> ExtractToken(None, Some(h)) == Some(h)
  {
    var b := BearerPrefix + token;
    assert StartsWith(b, BearerPrefix);
    assert ' ' !in b by {
      assert forall k :: 0 <= k < |b| ==> b[k] == (if k < |BearerPrefix| then BearerPrefix[k] else token[k - |BearerPrefix|]);
    }
    SplitWithoutSeparator(b, ' ');
  }

  // ---------------------------------------------------------------------------
  // verifyToken

  const NoToken: Reply := Reply(401, "Access denied. No token provided.")
  const UnknownUser: Reply := Reply(401, "User not found.")
  const AccountSuspended: Reply := Reply(403, "Account is suspended. Please contact administrator.")
  const TokenExpiredReply: Reply := Reply(401, "Token expired. Please login again.")
  const InvalidToken: Reply := Reply(401, "Invalid token.")
  const InternalError: Reply := Reply(500, "Internal server error.")

  /** `verifyToken`: the token is read step by step, verified, and its user looked up;
      `req.user` takes the id, email and verification flag from the token and the name and
      role from the stored account. */
  method VerifyToken(db: Db, cookie: Option<string>, header: Option<string>, verify: string -> JwtOutcome)
    returns (outcome: AuthOutcome)
    ensures ExtractToken(cookie, header).None? ==> outcome == Denied(NoToken)
    ensures var t := ExtractToken(cookie, header);
      t.Some? && verify(t.value) == TokenExpired ==> outcome == Denied(TokenExpiredReply)
    ensures var t := ExtractToken(cookie, header);
      t.Some? && verify(t.value) == TokenMalformed ==> outcome == Denied(InvalidToken)
    ensures var t := ExtractToken(cookie, header);
      t.Some? && verify(t.value) == TokenNotActive ==> outcome == Denied(InternalError)
    ensures var t := ExtractToken(cookie, header);
      t.Some? && verify(t.value).Decoded? && verify(t.value).claims.userId !in db.users ==>
      outcome == Denied(UnknownUser)
    ensures var t := ExtractToken(cookie, header);
      t.Some? && verify(t.value).Decoded? && verify(t.value).claims.userId in db.users
      && !db.users[verify(t.value).claims.userId].isActive ==>
      outcome == Denied(AccountSuspended)
    ensures outcome.Authenticated? <==>
      var t := ExtractToken(cookie, header);
      t.Some? && verify(t.value).Decoded? && verify(t.value).claims.userId in db.users
      && db.users[verify(t.value).claims.userId].isActive
    ensures outcome.Authenticated? ==>
      var c := verify(ExtractToken(cookie, header).value).claims;
      outcome.user == AuthUser(c.userId, db.users[c.userId].name, c.email, db.users[c.userId].role, c.verified)
  {
    var token := cookie;
    if !Truthy(token) && Truthy(header) {
      var h := header.value;
      if StartsWith(h, BearerPrefix) {
        var parts := Split(h, ' ');
        token := if |parts| >= 2 then Some(parts[1]) else None;
      } else {
        token := header;
      }
    }
    if !Truthy(token) {
      return Denied(NoToken);
    }
    var t := token.value;
    if StartsWith(t, BearerPrefix) {
      t := t[|BearerPrefix|..];
    }
    assert ExtractToken(cookie, header) == Some(t);
    var decoded := verify(t);
    if decoded == TokenExpired {
      return Denied(TokenExpiredReply);
    }
    if decoded == TokenMalformed {
      return Denied(InvalidToken);
    }
    if decoded == TokenNotActive {
      return Denied(InternalError);
    }
    var c := decoded.claims;
    if c.userId !in db.users {
      return Denied(UnknownUser);
    }
    var u := db.users[c.userId];
    if !u.isActive {
      return Denied(AccountSuspended);
    }
    outcome := Authenticated(AuthUser(c.userId, u.name, c.email, u.role, c.verified));
  }

  // ---------------------------------------------------------------------------
  // authorize and requireVerified

  /** A gate either lets the request through or answers it. */
  datatype Gate = Pass | Deny(reply: Reply)

  const NotAuthenticated: Reply := Reply(401, "User not authenticated.")
  const VerificationRequired: Reply := Reply(403, "Email verification required. Please verify your email first.")

  /** `allowedRoles.join(', ')`. */
  function RoleList(roles: seq<Role>): string
  {
    if |roles| == 0 then ""
    else if |roles| == 1 then RoleName(roles[0])
    else RoleName(roles[0]) + ", " + RoleList(roles[1..])
  }

  /** `authorize(...allowedRoles)`: 401 without `req.user`, 403 naming the allowed roles and
      the caller's unless the caller's role is among them. */
  function Authorize(allowed: seq<Role>, user: Option<AuthUser>): (g: Gate)
    ensures g.Pass? <==> user.Some? && user.value.role in allowed
    ensures user.None? ==> g == Deny(NotAuthenticated)
    ensures user.Some? && user.value.role !in allowed ==> g.Deny? && g.reply.code == 403
  {
    if user.None? then Deny(NotAuthenticated)
    else if user.value.role !in allowed then
      Deny(Reply(403, "Access denied. Required role(s): " + RoleList(allowed) + ". Your role: " + RoleName(user.value.role)))
    else Pass
  }

  /** `requireVerified`: 401 without `req.user`, 403 unless the token said verified. */
  function RequireVerified(user: Option<AuthUser>): (g: Gate)
    ensures g.Pass? <==> user.Some? && user.value.verified
    ensures user.None? ==> g == Deny(NotAuthenticated)
    ensures user.Some? && !user.value.verified ==> g == Deny(VerificationRequired)
  {
    if user.None? then Deny(NotAuthenticated)
    else if !user.value.verified then Deny(VerificationRequired)
    else Pass
  }

  /** An empty role list lets nobody through; adding roles never shuts anyone out. */
  lemma AuthorizeMonotone(allowed: seq<Role>, more: seq<Role>, user: Option<AuthUser>)
    ensures Authorize([], user).Deny?
    ensures Authorize(allowed, user).Pass? ==> Authorize(allowed + more, user).Pass?
  {
  }
}
