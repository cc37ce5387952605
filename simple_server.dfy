/**
 * simple-unified-server.js: one `http` server that answers the `/api/auth/`
 * routes and serves the built front end. Its handlers keep the same two
 * collections as server/index.js with fewer checks: no lockout, no domain or
 * duplicate check before a code is sent, no student id or name length checks,
 * and a code that expires at `expiresAt` itself.
 */
module SimpleServer {
  import opened Prelude
  import opened Text
  import opened Tokens
  import opened EmailRules
  import opened Ledger
  import opened Users
  import opened Api
  import opened Accounts

  const EMAIL_REQUIRED := "Email is required"
  const DOMAIN_REQUIRED := "Please use your Bowie State University email address"
  const CREDENTIALS_REQUIRED := "Email and password are required"
  const INVALID_CREDENTIALS := "Invalid credentials"

  // ----- handleSendVerification -----

  /** Only a missing address is refused; any other text gets a code. */
  function SendVerification(db: Db, email: string, draw: nat, now: int): DbOutcome
    requires draw < 900000
  {
    if email == [] then DbOutcome(Failure(400, EMAIL_REQUIRED), db)
    else
      var code := GenerateVerificationCode(draw);
      DbOutcome(CodeSent(code), db.(codes := Issue(db.codes, email, code, now)))
  }

  /** A code is sent for every non-empty address, registered or not and whatever its
      domain, and stored with a one-hour expiry and no attempts. */
  lemma SendVerificationSpec(db: Db, email: string, draw: nat, now: int)
    requires draw < 900000
    ensures var o := SendVerification(db, email, draw, now);
            && (o.reply.CodeSent? <==> email != [])
            && (o.reply.CodeSent? ==>
                 && |o.reply.code| == 6 && AllDigits(o.reply.code)
                 && o.db == db.(codes := Issue(db.codes, email, o.reply.code, now))
                 && o.db.codes[email].expiresAt == now + HOUR_MS && o.db.codes[email].attempts == 0)
            && (!o.reply.CodeSent? ==> o == DbOutcome(Failure(400, EMAIL_REQUIRED), db))
  {
  }

  // ----- handleVerifyCode -----

  function VerifyCodeRoute(db: Db, email: string, code: string, now: int): DbOutcome
  {
    VerifyCode(PastExpiry, db, email, code, now)
  }

  /** A check made exactly at `expiresAt` still goes ahead; one a millisecond later
      finds the code expired and deletes it. */
  lemma ExpiryInstant(db: Db, email: string, code: string)
    requires email in db.codes && db.codes[email].code == code
    ensures VerifyCodeRoute(db, email, code, db.codes[email].expiresAt).reply == CodeVerified
    ensures var o := VerifyCodeRoute(db, email, code, db.codes[email].expiresAt + 1);
            o.reply == Failure(400, CODE_EXPIRED) && email !in o.db.codes
  {
  }

  /** The two servers part ways for a code checked more than one and at most two hours
      after it was sent: server/index.js accepts it, this server refuses it. */
  lemma ServersDisagreeOnExpiry(db: Db, email: string, draw: nat, sentAt: int, now: int)
    requires draw < 900000 && email != [] && sentAt + HOUR_MS < now <= sentAt + 2 * HOUR_MS
    ensures var sent := SendVerification(db, email, draw, sentAt);
            && VerifyCode(HourPastExpiry, sent.db, email, sent.reply.code, now).reply == CodeVerified
            && VerifyCodeRoute(sent.db, email, sent.reply.code, now).reply == Failure(400, CODE_EXPIRED)
  {
  }

  // ----- handleVerifyEmail -----

  function CheckEmail(db: Db, email: string): Reply
  {
    if !EmailFormatOk(email) then Failure(400, INVALID_EMAIL_FORMAT)
    else if !DomainAllowed(email) then Failure(400, DOMAIN_REQUIRED)
    else if FindByEmail(db.users, email).Some? then Failure(400, EMAIL_TAKEN)
    else EmailAvailable
  }

  /** An address is reported available exactly when it is well formed, institutional and unused. */
  lemma CheckEmailSpec(db: Db, email: string)
    ensures CheckEmail(db, email) == EmailAvailable <==> EmailFormatOk(email) && DomainAllowed(email) && !HasEmail(db.users, email)
  {
    if FindByEmail(db.users, email).Some? {
      assert db.users[FindByEmail(db.users, email).value].email == email;
    }
  }

  // ----- handleRegister -----

  function RegistrationError(r: Registration): Option<string>
  {
    if !AllPresent(r) then Some(ALL_FIELDS_REQUIRED)
    else if |r.password| < MIN_PASSWORD_LENGTH then Some(PASSWORD_TOO_SHORT)
    else if !EmailFormatOk(r.email) then Some(INVALID_EMAIL_FORMAT)
    else if !DomainAllowed(r.email) then Some(DOMAIN_REQUIRED)
    else None
  }

  function Register(db: Db, r: Registration, now: int, salt: nat): DbOutcome
  {
    match RegistrationError(r)
    case Some(message) => DbOutcome(Failure(400, message), db)
    case None => Enroll(db, r, now, salt)
  }

  /** Registration succeeds exactly when the fields are present, the password is long
      enough, the address is well formed and institutional, its verification is no older
      than an hour and it has no user yet. */
  lemma RegisterSucceedsIff(db: Db, r: Registration, now: int, salt: nat)
    ensures var o := Register(db, r, now, salt);
            && (o.reply.UserCreated? <==>
                 && AllPresent(r) && |r.password| >= MIN_PASSWORD_LENGTH
                 && EmailFormatOk(r.email) && DomainAllowed(r.email)
                 && VerifiedAt(db.codes, r.email).Some?
                 && !VerificationTooOld(VerifiedAt(db.codes, r.email).value, now)
                 && !HasEmail(db.users, r.email))
            && (!o.reply.UserCreated? ==> o.db == db && o.reply.Failure? && o.reply.status == 400)
  {
    EnrollSucceedsIff(db, r, now, salt);
  }

  /** Student id, names and code are only required to be present: their content and
      length never decide the outcome. */
  lemma OnlyPresenceOfOtherFields(db: Db, r: Registration, firstName: string, lastName: string,
                                  studentId: string, code: string, now: int, salt: nat)
    requires firstName != [] && lastName != [] && studentId != [] && code != []
    requires r.firstName != [] && r.lastName != [] && r.studentId != [] && r.verificationCode != []
    ensures var r2 := r.(firstName := firstName, lastName := lastName, studentId := studentId, verificationCode := code);
            Register(db, r2, now, salt).reply.UserCreated? == Register(db, r, now, salt).reply.UserCreated?
  {
    var r2 := r.(firstName := firstName, lastName := lastName, studentId := studentId, verificationCode := code);
    EnrollSucceedsIff(db, r, now, salt);
    EnrollSucceedsIff(db, r2, now, salt);
  }

  // ----- handleLogin -----

  /** No lockout: an unknown address and a wrong password get the same 401 and leave
      everything as it was; success stores only the new refresh token. */
  function Login(db: Db, email: string, password: string, now: int): DbOutcome
  {
    if email == [] || password == [] then DbOutcome(Failure(400, CREDENTIALS_REQUIRED), db)
    else
      match FindByEmail(db.users, email)
      case None => DbOutcome(Failure(401, INVALID_CREDENTIALS), db)
      case Some(k) =>
        var u := db.users[k];
        if !PasswordMatches(password, u.password) then DbOutcome(Failure(401, INVALID_CREDENTIALS), db)
        else
          var tokens := GenerateTokens(IdText(u.id), now);
          DbOutcome(LoggedIn(Sanitize(u), tokens),
                    db.(users := ReplaceFirstById(db.users, u.id, u.(refreshToken := Some(tokens.refreshToken)))))
  }

  /** A login succeeds exactly with the right password for a known address; it then
      stores the refresh token on that user alone, leaves `lastLogin` as it was and
      answers with the user minus password and refresh token. Any failure changes
      nothing, so failures can be repeated without limit. */
  lemma LoginSpec(db: Db, email: string, password: string, now: int)
    requires DbValid(db)
    ensures var o := Login(db, email, password, now);
            && (o.reply.LoggedIn? <==>
                 && email != [] && password != [] && HasEmail(db.users, email)
                 && PasswordMatches(password, db.users[FindByEmail(db.users, email).value].password))
            && (o.reply.LoggedIn? ==>
                 var k := FindByEmail(db.users, email).value;
                 var u := db.users[k];
                 && o.reply.user == Sanitize(u)
                 && o.reply.tokens == GenerateTokens(IdText(u.id), now)
                 && o.db == db.(users := db.users[k := u.(refreshToken := Some(o.reply.tokens.refreshToken))])
                 && DbValid(o.db))
            && (!o.reply.LoggedIn? ==>
                 && o.db == db
                 && o.reply == Failure(if email == [] || password == [] then 400 else 401,
                                       if email == [] || password == [] then CREDENTIALS_REQUIRED else INVALID_CREDENTIALS))
  {
    var o := Login(db, email, password, now);
    if HasEmail(db.users, email) {
      assert FindByEmail(db.users, email).Some?;
    }
    if o.reply.LoggedIn? {
      var k := FindByEmail(db.users, email).value;
      var u := db.users[k];
      var stored := u.(refreshToken := Some(o.reply.tokens.refreshToken));
      ReplaceAtUniqueId(db.users, db.nextId, k, stored);
      ReplaceKeepsIdsValid(db.users, db.nextId, k, stored);
    }
  }

  // ----- routing -----

  const API_PREFIX := "/api/auth/"

  datatype Endpoint = SendVerificationEndpoint | VerifyCodeEndpoint | RegisterEndpoint | LoginEndpoint | VerifyEmailEndpoint

  /** The `switch (endpoint)` cases. */
  function EndpointNamed(name: string): Option<Endpoint>
  {
    if name == "send-verification" then Some(SendVerificationEndpoint)
    else if name == "verify-code" then Some(VerifyCodeEndpoint)
    else if name == "register" then Some(RegisterEndpoint)
    else if name == "login" then Some(LoginEndpoint)
    else if name == "verify-email" then Some(VerifyEmailEndpoint)
    else None
  }

  /** Where a request goes: a preflight answer, an API handler, a 405, a 404, or a static file. */
  datatype Route = Preflight | Handler(endpoint: Endpoint) | MethodNotAllowed | EndpointNotFound | StaticFile(path: string)

  function RouteStatus(r: Route): Option<nat>
  {
    match r
    case Preflight => Some(200)
    case MethodNotAllowed => Some(405)
    case EndpointNotFound => Some(404)
    case _ => None
  }

  /** `'/'` is served as `'/index.html'`; any other path as it is. */
  function StaticPath(url: string): string
  {
    if url == "/" then "/index.html" else url
  }

  function Dispatch(verb: string, url: string): Route
  {
    if verb == "OPTIONS" then Preflight
    else if StartsWith(url, API_PREFIX) then
      match EndpointNamed(url[|API_PREFIX|..])
      case None => EndpointNotFound
      case Some(e) => if verb == "POST" then Handler(e) else MethodNotAllowed
    else StaticFile(StaticPath(url))
  }

  /** Any OPTIONS request is answered 200 with no further work. Under `/api/auth/`, a
      known endpoint is handled for POST and refused 405 for every other method, and an
      unknown one is 404 whatever the method; everything else is a static path. */
  lemma DispatchSpec(verb: string, name: string)
    ensures Dispatch("OPTIONS", API_PREFIX + name) == Preflight && RouteStatus(Preflight) == Some(200)
    ensures verb != "OPTIONS" ==>
            var r := Dispatch(verb, API_PREFIX + name);
            && (EndpointNamed(name).Some? && verb == "POST" ==> r == Handler(EndpointNamed(name).value))
            && (EndpointNamed(name).Some? && verb != "POST" ==> r == MethodNotAllowed && RouteStatus(r) == Some(405))
            && (EndpointNamed(name).None? ==> r == EndpointNotFound && RouteStatus(r) == Some(404))
  {
    var url := API_PREFIX + name;
    assert url[..|API_PREFIX|] == API_PREFIX;
    assert url[|API_PREFIX|..] == name;
  }

  /** The five endpoint names are told apart. */
  lemma EndpointNamesDistinct(a: string, b: string)
    requires EndpointNamed(a).Some? && EndpointNamed(a) == EndpointNamed(b)
    ensures a == b
  {
  }

  /** The root is the front end's entry page; a request outside `/api/auth/` keeps its path. */
  lemma StaticMapping(verb: string, url: string)
    requires verb != "OPTIONS" && !StartsWith(url, API_PREFIX)
    ensures Dispatch(verb, url) == StaticFile(if url == "/" then "/index.html" else url)
    ensures Dispatch(verb, "/") == StaticFile("/index.html")
  {
    assert !StartsWith("/", API_PREFIX);
  }

  // ----- static files -----

  /** `getContentType(ext)`: the nine known extensions and `text/plain` for the rest. */
  function GetContentType(ext: string): string
  {
    if ext == ".html" then "text/html"
    else if ext == ".js" then "application/javascript"
    else if ext == ".css" then "text/css"
    else if ext == ".json" then "application/json"
    else if ext == ".png" then "image/png"
    else if ext == ".jpg" then "image/jpeg"
    else if ext == ".gif" then "image/gif"
    else if ext == ".svg" then "image/svg+xml"
    else if ext == ".ico" then "image/x-icon"
    else "text/plain"
  }

  const KNOWN_EXTENSIONS: seq<string> := [".html", ".js", ".css", ".json", ".png", ".jpg", ".gif", ".svg", ".ico"]

  /** Exactly the nine listed extensions have a type of their own, and anything else
      (including `.jpeg` or an upper-case `.HTML`) is `text/plain`. */
  lemma ContentTypeKnown(ext: string)
    ensures GetContentType(ext) != "text/plain" <==> ext in KNOWN_EXTENSIONS
  {
    if ext !in KNOWN_EXTENSIONS {
      assert ext != ".html" && ext != ".js" && ext != ".css" && ext != ".json" && ext != ".png";
      assert ext != ".jpg" && ext != ".gif" && ext != ".svg" && ext != ".ico";
    }
  }

  // ----- the server object -----

  /** The two collections and the next ObjectId, updated in place by the handlers. */
  class UnifiedServer {
    var codes: Codes
    var users: seq<User>
    var nextId: nat

    function State(): Db
      reads this
    {
      Db(codes, users, nextId)
    }

    ghost predicate Valid()
      reads this
    {
      DbValid(State())
    }

    constructor ()
      ensures State() == Db(map[], [], 0) && Valid()
    {
      codes := map[];
      users := [];
      nextId := 0;
    }

    method HandleSendVerification(email: string, draw: nat, now: int) returns (reply: Reply)
      requires draw < 900000
      modifies this
      ensures DbOutcome(reply, State()) == SendVerification(old(State()), email, draw, now)
    {
      if email == [] {
        return Failure(400, EMAIL_REQUIRED);
      }
      var code := GenerateVerificationCode(draw);
      codes := Issue(codes, email, code, now);
      reply := CodeSent(code);
    }

    method HandleVerifyCode(email: string, code: string, now: int) returns (reply: Reply)
      modifies this
      ensures DbOutcome(reply, State()) == VerifyCodeRoute(old(State()), email, code, now)
    {
      if email !in codes {
        return Failure(400, NO_CODE_FOUND);
      }
      var rec := codes[email];
      if now > rec.expiresAt {
        codes := codes - {email};
        return Failure(400, CODE_EXPIRED);
      }
      if rec.code != code {
        codes := codes[email := rec.(attempts := rec.attempts + 1)];
        if rec.attempts >= MISSES_BEFORE_DELETE {
          codes := codes - {email};
          return Failure(400, TOO_MANY_ATTEMPTS);
        }
        return Failure(400, INVALID_CODE);
      }
      codes := codes[email := rec.(verifiedAt := Some(now))];
      reply := CodeVerified;
    }

    method HandleVerifyEmail(email: string) returns (reply: Reply)
      ensures reply == CheckEmail(State(), email)
    {
      if !EmailFormatOk(email) {
        return Failure(400, INVALID_EMAIL_FORMAT);
      }
      if !DomainAllowed(email) {
        return Failure(400, DOMAIN_REQUIRED);
      }
      var existing := FindByEmail(users, email);
      if existing.Some? {
        return Failure(400, EMAIL_TAKEN);
      }
      return EmailAvailable;
    }

    method HandleRegister(r: Registration, now: int, salt: nat) returns (reply: Reply)
      modifies this
      ensures DbOutcome(reply, State()) == Register(old(State()), r, now, salt)
      ensures old(Valid()) ==> Valid()
    {
      var error := RegistrationError(r);
      if error.Some? {
        return Failure(400, error.value);
      }
      var verifiedAt := VerifiedAt(codes, r.email);
      if verifiedAt.None? {
        return Failure(400, EMAIL_NOT_VERIFIED);
      }
      if VerificationTooOld(verifiedAt.value, now) {
        return Failure(400, VERIFICATION_EXPIRED);
      }
      var existing := FindByEmail(users, r.email);
      if existing.Some? {
        return Failure(400, USER_EXISTS);
      }
      EnrollCreates(State(), r, now, salt);
      var u := Enrolled(State(), r, now, salt);
      users := users + [u];
      nextId := nextId + 1;
      codes := codes - {r.email};
      reply := UserCreated(Sanitize(u));
    }

    method HandleLogin(email: string, password: string, now: int) returns (reply: Reply)
      modifies this
      ensures DbOutcome(reply, State()) == Login(old(State()), email, password, now)
      ensures old(Valid()) ==> Valid()
    {
      if Valid() {
        LoginSpec(State(), email, password, now);
      }
      if email == [] || password == [] {
        return Failure(400, CREDENTIALS_REQUIRED);
      }
      var found := FindByEmail(users, email);
      if found.None? {
        return Failure(401, INVALID_CREDENTIALS);
      }
      var u := users[found.value];
      if !PasswordMatches(password, u.password) {
        return Failure(401, INVALID_CREDENTIALS);
      }
      var tokens := GenerateTokens(IdText(u.id), now);
      users := ReplaceFirstById(users, u.id, u.(refreshToken := Some(tokens.refreshToken)));
      reply := LoggedIn(Sanitize(u), tokens);
    }
  }
}
