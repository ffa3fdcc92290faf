/** `authController.js`: registration, login, and email verification by a mailed six-digit
    code. `doHash`, `doHashValidation`, `hmacProcess` and `jwt.sign` are the parameters
    `hash`, `compare`, `hmac` and `sign`; whether the mail server accepted a message is the
    input `mailAccepted`, and `Math.random()` the input `random`. */
module AuthController {
  import opened Common
  import opened Text
  import opened Validator
  import opened Records
  import opened Store
  import opened AuthMiddleware
  import UserController

  /** `User.findOne({ email })`: some account with that email, when there is one. */
  method FindByEmail(users: map<Id, User>, email: string) returns (found: Option<Id>)
    ensures found.None? <==> !HasEmail(users, email)
    ensures found.Some? ==> found.value in users && users[found.value].email == email
  {
    if HasEmail(users, email) {
      var id :| id in users && users[id].email == email;
      found := Some(id);
    } else {
      found := None;
    }
  }

  /** Under the unique index the account found by email is the only one. */
  lemma EmailOwnerUnique(users: map<Id, User>, a: Id, b: Id)
    requires UserController.EmailsUnique(users)
    requires a in users && b in users && users[a].email == users[b].email
    ensures a == b
  {
  }

  // ---------------------------------------------------------------------------
  // register

  /** The account `register` builds: the name as the schema's trim setter stores it,
      unverified, active, the hashed password, the role asked for or `patient`. */
  function RegisteredUser(r: RegisterRequest, hash: string -> string): User
    requires ValidRegister(r)
  {
    User(Some(Trim(r.name.value)), r.email.value, hash(r.password.value), UserController.RoleOf(r.role), false, None, None, true, EmptyProfile)
  }

  /** A registered account stores the requested name trimmed, so a second trim changes
      nothing; it starts unverified and active with the hashed password; the schema lets a
      caller choose any role, `admin` included. It saves exactly when its trimmed name and its
      hash are non-empty. */
  lemma RegisteredUserFields(r: RegisterRequest, hash: string -> string)
    requires ValidRegister(r)
    ensures RegisteredUser(r, hash).name == Some(Trim(r.name.value))
    ensures Trim(RegisteredUser(r, hash).name.value) == RegisteredUser(r, hash).name.value
    ensures !RegisteredUser(r, hash).verified && RegisteredUser(r, hash).isActive
    ensures RegisteredUser(r, hash).password == hash(r.password.value)
    ensures r.role.None? ==> RegisteredUser(r, hash).role == Role.Patient
    ensures r.role.Some? ==> RoleName(RegisteredUser(r, hash).role) == r.role.value
    ensures UserSaveable(RegisteredUser(r, hash)) <==> Trim(r.name.value) != "" && hash(r.password.value) != ""
  {
    TrimIdempotent(r.name.value);
  }

  const NotAnObject: Reply := Reply(400, "Le corps de la requête doit être un objet JSON (Content-Type: application/json).")
  /** Joi's joined messages are not modelled; only the status code is. */
  const SchemaRefused: Reply := Reply(400, "Validation failed")
  const EmailTaken: Reply := Reply(401, "Email already exists")
  const Registered: Reply := Reply(201, "User registered successfully")
  const ServerError: Reply := Reply(500, "Server error")

  /** `register`: a body that is not an object, the schema, the duplicate email, then
      `save`. */
  method Register(db: Db, body: Option<RegisterRequest>, hash: string -> string, newId: Id) returns (reply: Reply)
    requires newId !in db.users
    modifies db`users
    ensures body.None? ==> reply == NotAnObject && db.users == old(db.users)
    ensures body.Some? && !ValidRegister(body.value) ==> reply == SchemaRefused && db.users == old(db.users)
    ensures body.Some? && ValidRegister(body.value) && HasEmail(old(db.users), body.value.email.value) ==>
      reply == EmailTaken && db.users == old(db.users)
    ensures body.Some? && ValidRegister(body.value) && !HasEmail(old(db.users), body.value.email.value)
            && !UserSaveable(RegisteredUser(body.value, hash)) ==>
      reply == ServerError && db.users == old(db.users)
    ensures body.Some? && ValidRegister(body.value) && !HasEmail(old(db.users), body.value.email.value)
            && UserSaveable(RegisteredUser(body.value, hash)) ==>
      reply == Registered && db.users == old(db.users)[newId := RegisteredUser(body.value, hash)]
  {
    if body.None? {
      return NotAnObject;
    }
    var r := body.value;
    if !ValidRegister(r) {
      return SchemaRefused;
    }
    if HasEmail(db.users, r.email.value) {
      return EmailTaken;
    }
    var u := RegisteredUser(r, hash);
    if !UserSaveable(u) {
      return ServerError;
    }
    db.users := db.users[newId := u];
    reply := Registered;
  }

  // ---------------------------------------------------------------------------
  // login

  const InvalidCredentials: Reply := Reply(401, "Invalid credentials")
  const LoginSuspended: Reply := Reply(403, "Account suspended. Contact administrator.")
  const LoggedIn: Reply := Reply(200, "User logged in successfully")

  /** The claims login signs for an account. */
  function ClaimsOf(id: Id, u: User): (c: Claims)
    ensures c.userId == id && c.role == u.role && c.verified == u.verified && c.email == u.email
  {
    Claims(id, u.email, u.verified, u.role)
  }

  /** `login`: the schema, the account by email, the suspension check before the password
      check, then the `Authorization` cookie `'Bearer' + token`. `account` is the account the
      lookup found. */
  method Login(db: Db, r: LoginRequest, compare: (string, string) -> bool, sign: Claims -> string)
    returns (reply: Reply, account: Option<Id>, cookie: Option<string>)
    ensures !ValidLogin(r) ==> reply == SchemaRefused && account.None? && cookie.None?
    ensures ValidLogin(r) ==> (account.None? <==> !HasEmail(db.users, r.email.value))
    ensures account.Some? ==> account.value in db.users && db.users[account.value].email == r.email.value
    ensures ValidLogin(r) && account.None? ==> reply == InvalidCredentials && cookie.None?
    ensures account.Some? && !db.users[account.value].isActive ==> reply == LoginSuspended && cookie.None?
    ensures account.Some? && db.users[account.value].isActive
            && !compare(r.password.value, db.users[account.value].password) ==>
      reply == InvalidCredentials && cookie.None?
    ensures account.Some? && db.users[account.value].isActive
            && compare(r.password.value, db.users[account.value].password) ==>
      reply == LoggedIn && cookie == Some(BearerPrefix + sign(ClaimsOf(account.value, db.users[account.value])))
  {
    cookie := None;
    if !ValidLogin(r) {
      return SchemaRefused, None, None;
    }
    account := FindByEmail(db.users, r.email.value);
    if account.None? {
      return InvalidCredentials, account, None;
    }
    var u := db.users[account.value];
    if !u.isActive {
      return LoginSuspended, account, None;
    }
    if !compare(r.password.value, u.password) {
      return InvalidCredentials, account, None;
    }
    var token := sign(ClaimsOf(account.value, u));
    cookie := Some(BearerPrefix + token);
    reply := LoggedIn;
  }

  /** The cookie of a login is what `verifyToken` reads back: when verification decodes a
      signed token to its claims, the middleware sees the account's id and current role, so
      the account passes `verifyToken` while it stays active. */
  lemma LoginCookieAccepted(id: Id, u: User, sign: Claims -> string, verify: string -> JwtOutcome, header: Option<string>)
    requires verify(sign(ClaimsOf(id, u))) == Decoded(ClaimsOf(id, u))
    ensures ExtractToken(Some(BearerPrefix + sign(ClaimsOf(id, u))), header) == Some(sign(ClaimsOf(id, u)))
    ensures verify(ExtractToken(Some(BearerPrefix + sign(ClaimsOf(id, u))), header).value).claims.userId == id
  {
    CookieRoundTrip(sign(ClaimsOf(id, u)), header);
  }

  // ---------------------------------------------------------------------------
  // the verification code

  /** `15 * 60 * 1000` milliseconds. */
  const CodeLifetime: int := 900000

  /** `Math.floor(100000 + Math.random() * 900000)`. */
  function CodeOf(random: real): (code: int)
    requires 0.0 <= random < 1.0
    ensures 100000 <= code <= 999999
  {
    (100000.0 + random * 900000.0).Floor
  }

  /** The account once a code is mailed: the code's HMAC and the sending time stored. */
  function WithCode(u: User, digest: string, now: int): (v: User)
    ensures v.verificationCode == Some(digest) && v.verificationCodeValidation == Some(now)
    ensures v.(verificationCode := u.verificationCode, verificationCodeValidation := u.verificationCodeValidation) == u
  {
    u.(verificationCode := Some(digest), verificationCodeValidation := Some(now))
  }

  /** The account once verified: the flag set and both code fields cleared. */
  function MarkedVerified(u: User): (v: User)
    ensures v.verified && v.verificationCode.None? && v.verificationCodeValidation.None?
    ensures v.(verified := u.verified, verificationCode := u.verificationCode,
               verificationCodeValidation := u.verificationCodeValidation) == u
  {
    u.(verified := true, verificationCode := None, verificationCodeValidation := None)
  }

  /** `Date.now() - verificationCodeValidation > expirationTime`. Without a stored time the
      difference is `NaN` and the code never expires. */
  predicate Expired(u: User, now: int)
  {
    u.verificationCodeValidation.Some? && now - u.verificationCodeValidation.value > CodeLifetime
  }

  const NoSuchUser: Reply := Reply(404, "User does not exist!")
  const AlreadyVerifiedBang: Reply := Reply(400, "User already verified!")
  const MailFailed: Reply := Reply(500, "Error sending email")
  const CodeSent: Reply := Reply(200, "Verification code sent to your email")

  /** The filter `{ email }` of `sendVerificationCode`, which has no schema: a body without an
      email leaves the key undefined, and the query `{}` matches every account. */
  predicate QueryMatches(u: User, email: Option<string>)
  {
    email.None? || u.email == email.value
  }

  /** Some account matches the filter. */
  predicate HasMatch(users: map<Id, User>, email: Option<string>)
  {
    exists id :: id in users && QueryMatches(users[id], email)
  }

  /** With an email the filter finds exactly the accounts `HasEmail` names; without one it
      finds an account whenever there is any. */
  lemma MatchMeaning(users: map<Id, User>, email: Option<string>)
    ensures email.Some? ==> (HasMatch(users, email) <==> HasEmail(users, email.value))
    ensures email.None? ==> (HasMatch(users, email) <==> users != map[])
  {
    if email.None? && users != map[] {
      var id :| id in users;
      assert QueryMatches(users[id], email);
    }
  }

  /** `User.findOne({ email })` with a possibly absent email: some matching account, when
      there is one. Which one `{}` returns is the collection's natural order, which the model
      leaves open. */
  method FindOne(users: map<Id, User>, email: Option<string>) returns (found: Option<Id>)
    ensures found.None? <==> !HasMatch(users, email)
    ensures found.Some? ==> found.value in users && QueryMatches(users[found.value], email)
  {
    if HasMatch(users, email) {
      var id :| id in users && QueryMatches(users[id], email);
      found := Some(id);
    } else {
      found := None;
    }
  }

  /** `sendVerificationCode`: no account matching the filter is 404 and a verified account
      400; the code's HMAC and the time are stored only when the mail server accepted the
      message. A body without an email reaches some account. */
  method SendVerificationCode(db: Db, email: Option<string>, random: real, mailAccepted: bool, hmac: string -> string, now: int)
    returns (reply: Reply, account: Option<Id>)
    requires 0.0 <= random < 1.0
    modifies db`users
    ensures account.None? <==> !HasMatch(old(db.users), email)
    ensures account.Some? ==> account.value in old(db.users) && QueryMatches(old(db.users)[account.value], email)
    ensures account.None? ==> reply == NoSuchUser && db.users == old(db.users)
    ensures account.Some? && old(db.users)[account.value].verified ==>
      reply == AlreadyVerifiedBang && db.users == old(db.users)
    ensures account.Some? && !old(db.users)[account.value].verified && !mailAccepted ==>
      reply == MailFailed && db.users == old(db.users)
    ensures account.Some? && !old(db.users)[account.value].verified && mailAccepted
            && !UserSaveable(old(db.users)[account.value]) ==>
      reply == ServerError && db.users == old(db.users)
    ensures account.Some? && !old(db.users)[account.value].verified && mailAccepted
            && UserSaveable(old(db.users)[account.value]) ==>
      reply == CodeSent
      && db.users == old(db.users)[account.value := WithCode(old(db.users)[account.value], hmac(Decimal(CodeOf(random))), now)]
  {
    account := FindOne(db.users, email);
    if account.None? {
      return NoSuchUser, account;
    }
    var u := db.users[account.value];
    if u.verified {
      return AlreadyVerifiedBang, account;
    }
    var code := Decimal(CodeOf(random));
    if !mailAccepted {
      return MailFailed, account;
    }
    var v := WithCode(u, hmac(code), now);
    if !UserSaveable(v) {
      return ServerError, account;
    }
    db.users := db.users[account.value := v];
    reply := CodeSent;
  }

  const UnknownEmail: Reply := Reply(404, "User not found")
  const AlreadyVerified: Reply := Reply(400, "User already verified")
  const NoCode: Reply := Reply(400, "No verification code found. Please request a new one.")
  const CodeExpired: Reply := Reply(400, "Verification code expired. Please request a new one.")
  const WrongCode: Reply := Reply(400, "Invalid verification code")
  const EmailVerified: Reply := Reply(200, "Email verified successfully")

  /** Every check of `verifyEmail` after the lookup passes for `code`. */
  predicate CodeAccepted(u: User, code: string, hmac: string -> string, now: int)
  {
    !u.verified && Truthy(u.verificationCode) && !Expired(u, now) && hmac(code) == u.verificationCode.value
  }

  /** `verifyEmail`: the schema, the account, already verified, no code stored, the code's
      age, then the HMAC comparison; a mismatch changes nothing. */
  method VerifyEmail(db: Db, r: VerifyCodeRequest, hmac: string -> string, now: int) returns (reply: Reply, account: Option<Id>)
    modifies db`users
    ensures !ValidVerifyRequest(r) ==> reply == SchemaRefused && account.None? && db.users == old(db.users)
    ensures ValidVerifyRequest(r) ==> (account.None? <==> !HasEmail(old(db.users), r.email.value))
    ensures account.Some? ==> account.value in old(db.users) && old(db.users)[account.value].email == r.email.value
    ensures ValidVerifyRequest(r) && account.None? ==> reply == UnknownEmail && db.users == old(db.users)
    ensures account.Some? && old(db.users)[account.value].verified ==>
      reply == AlreadyVerified && db.users == old(db.users)
    ensures account.Some? && !old(db.users)[account.value].verified && !Truthy(old(db.users)[account.value].verificationCode) ==>
      reply == NoCode && db.users == old(db.users)
    ensures account.Some? && !old(db.users)[account.value].verified && Truthy(old(db.users)[account.value].verificationCode)
            && Expired(old(db.users)[account.value], now) ==>
      reply == CodeExpired && db.users == old(db.users)
    ensures account.Some? && !old(db.users)[account.value].verified && Truthy(old(db.users)[account.value].verificationCode)
            && !Expired(old(db.users)[account.value], now)
            && hmac(r.code.value) != old(db.users)[account.value].verificationCode.value ==>
      reply == WrongCode && db.users == old(db.users)
    ensures account.Some? && CodeAccepted(old(db.users)[account.value], r.code.value, hmac, now)
            && !UserSaveable(old(db.users)[account.value]) ==>
      reply == ServerError && db.users == old(db.users)
    ensures account.Some? && CodeAccepted(old(db.users)[account.value], r.code.value, hmac, now)
            && UserSaveable(old(db.users)[account.value]) ==>
      reply == EmailVerified && db.users == old(db.users)[account.value := MarkedVerified(old(db.users)[account.value])]
  {
    account := None;
    if !ValidVerifyRequest(r) {
      return SchemaRefused, None;
    }
    account := FindByEmail(db.users, r.email.value);
    if account.None? {
      return UnknownEmail, account;
    }
    var u := db.users[account.value];
    if u.verified {
      return AlreadyVerified, account;
    }
    if !Truthy(u.verificationCode) {
      return NoCode, account;
    }
    if Expired(u, now) {
      return CodeExpired, account;
    }
    if hmac(r.code.value) != u.verificationCode.value {
      return WrongCode, account;
    }
    var v := MarkedVerified(u);
    if !UserSaveable(v) {
      return ServerError, account;
    }
    db.users := db.users[account.value := v];
    reply := EmailVerified;
  }

  /** The mailed code verifies the account within fifteen minutes of sending and is refused
      as expired after that; the code passes the request schema either way, and a
      verification once accepted leaves the account verified with no code stored. */
  lemma CodeRoundTrip(u: User, random: real, hmac: string -> string, sent: int, now: int)
    requires 0.0 <= random < 1.0 && !u.verified && hmac(Decimal(CodeOf(random))) != ""
    ensures ValidVerifyCode(Decimal(CodeOf(random)))
    ensures var v := WithCode(u, hmac(Decimal(CodeOf(random))), sent);
      now - sent <= CodeLifetime <==> CodeAccepted(v, Decimal(CodeOf(random)), hmac, now)
    ensures var v := WithCode(u, hmac(Decimal(CodeOf(random))), sent);
      now - sent > CodeLifetime ==> Expired(v, now)
    ensures MarkedVerified(WithCode(u, hmac(Decimal(CodeOf(random))), sent)).verified
    ensures UserSaveable(WithCode(u, hmac(Decimal(CodeOf(random))), sent)) <==> UserSaveable(u)
  {
    SixDigitCodesValid(CodeOf(random));
  }
}
