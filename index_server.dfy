/**
 * The Express API of server/index.js: the `/api/auth/` routes over the two
 * collections, with the in-memory lockout map in front of login. Each route is
 * one atomic step; the pure functions below say what a step answers and what
 * state it leaves, and the class `AuthServer` performs the same steps by
 * updating its fields.
 */
module IndexServer {
  import opened Prelude
  import opened Text
  import opened Tokens
  import opened EmailRules
  import opened Ledger
  import opened Lockout
  import opened Users
  import opened Api
  import opened Accounts

  datatype Server = Server(db: Db, failed: FailedAttempts)

  datatype Outcome = Outcome(reply: Reply, server: Server)

  const DOMAIN_REQUIRED := "Please use your Bowie State University email address (@bowiestate.edu or @students.bowiestate.edu)"
  const STUDENT_ID_LENGTH := "Student ID must be between 3 and 20 characters long"
  const NAMES_TOO_SHORT := "First and last names must be at least 2 characters long"
  const CODE_LENGTH := "Verification code must be exactly 6 digits"
  const CREDENTIALS_REQUIRED := "Email and password are required"
  const ACCOUNT_LOCKED := "Account temporarily locked due to too many failed attempts. Please try again in 30 minutes."
  const INVALID_LOGIN := "Invalid email or password"
  const REFRESH_REQUIRED := "Refresh token required"
  const INVALID_REFRESH := "Invalid refresh token"

  const MIN_STUDENT_ID: nat := 3
  const MAX_STUDENT_ID: nat := 20
  const MIN_NAME: nat := 2
  const CODE_DIGITS: nat := 6

  predicate ServerValid(s: Server)
  {
    DbValid(s.db)
  }

  // ----- POST /api/auth/send-verification -----

  /** A code is issued only for a well-formed institutional address with no user yet;
      `draw` is the random choice of code. */
  function SendVerification(db: Db, email: string, draw: nat, now: int): DbOutcome
    requires draw < 900000
  {
    if !EmailFormatOk(email) then DbOutcome(Failure(400, INVALID_EMAIL_FORMAT), db)
    else if !DomainAllowed(email) then DbOutcome(Failure(400, DOMAIN_REQUIRED), db)
    else if FindByEmail(db.users, email).Some? then DbOutcome(Failure(400, EMAIL_TAKEN), db)
    else
      var code := GenerateVerificationCode(draw);
      DbOutcome(CodeSent(code), db.(codes := Issue(db.codes, email, code, now)))
  }

  /** A code is sent exactly for a well-formed, institutional, unregistered address; the
      code is six digits, stored with a one-hour expiry and no attempts, and any earlier
      verification of the address is kept. A refusal is a 400 and changes nothing. */
  lemma SendVerificationSpec(db: Db, email: string, draw: nat, now: int)
    requires draw < 900000
    ensures var o := SendVerification(db, email, draw, now);
            && (o.reply.CodeSent? <==> EmailFormatOk(email) && DomainAllowed(email) && !HasEmail(db.users, email))
            && (o.reply.CodeSent? ==>
                 && |o.reply.code| == 6 && AllDigits(o.reply.code)
                 && o.db == db.(codes := Issue(db.codes, email, o.reply.code, now))
                 && o.db.codes[email].expiresAt == now + HOUR_MS && o.db.codes[email].attempts == 0
                 && o.db.codes[email].verifiedAt == VerifiedAt(db.codes, email))
            && (!o.reply.CodeSent? ==> o.db == db && o.reply.Failure? && o.reply.status == 400)
  {
    if FindByEmail(db.users, email).Some? {
      assert db.users[FindByEmail(db.users, email).value].email == email;
    }
  }

  // ----- POST /api/auth/verify-code -----

  function VerifyCodeRoute(db: Db, email: string, code: string, now: int): DbOutcome
  {
    VerifyCode(HourPastExpiry, db, email, code, now)
  }

  // ----- POST /api/auth/verify-email -----

  /** Reports whether an address could be used, without changing anything. */
  function CheckEmail(db: Db, email: string): Reply
  {
    if !EmailFormatOk(email) then Failure(400, INVALID_EMAIL_FORMAT)
    else if !DomainAllowed(email) then Failure(400, DOMAIN_REQUIRED)
    else if FindByEmail(db.users, email).Some? then Failure(400, EMAIL_TAKEN)
    else EmailAvailable
  }

  /** verify-email answers "available" exactly when send-verification would issue a code. */
  lemma CheckEmailAgrees(db: Db, email: string, draw: nat, now: int)
    requires draw < 900000
    ensures CheckEmail(db, email) == EmailAvailable <==> SendVerification(db, email, draw, now).reply.CodeSent?
    ensures CheckEmail(db, email) != EmailAvailable ==> CheckEmail(db, email) == SendVerification(db, email, draw, now).reply
  {
  }

  // ----- POST /api/auth/register -----

  /** The request checks, in the order the route makes them; the first that fails gives the message. */
  function RegistrationError(r: Registration): Option<string>
  {
    if !AllPresent(r) then Some(ALL_FIELDS_REQUIRED)
    else if |r.password| < MIN_PASSWORD_LENGTH then Some(PASSWORD_TOO_SHORT)
    else if |Trim(r.studentId)| < MIN_STUDENT_ID || |Trim(r.studentId)| > MAX_STUDENT_ID then Some(STUDENT_ID_LENGTH)
    else if |Trim(r.firstName)| < MIN_NAME || |Trim(r.lastName)| < MIN_NAME then Some(NAMES_TOO_SHORT)
    else if !EmailFormatOk(r.email) then Some(INVALID_EMAIL_FORMAT)
    else if !DomainAllowed(r.email) then Some(DOMAIN_REQUIRED)
    else if |Trim(r.verificationCode)| != CODE_DIGITS then Some(CODE_LENGTH)
    else None
  }

  function Register(db: Db, r: Registration, now: int, salt: nat): DbOutcome
  {
    match RegistrationError(r)
    case Some(message) => DbOutcome(Failure(400, message), db)
    case None => Enroll(db, r, now, salt)
  }

  /** Registration succeeds exactly when every request check passes, the address has a
      verification no older than an hour and no user has the address yet. */
  lemma RegisterSucceedsIff(db: Db, r: Registration, now: int, salt: nat)
    ensures var o := Register(db, r, now, salt);
            && (o.reply.UserCreated? <==>
                 && RegistrationError(r).None?
                 && VerifiedAt(db.codes, r.email).Some?
                 && !VerificationTooOld(VerifiedAt(db.codes, r.email).value, now)
                 && !HasEmail(db.users, r.email))
            && (!o.reply.UserCreated? ==> o.db == db && o.reply.Failure? && o.reply.status == 400)
  {
    EnrollSucceedsIff(db, r, now, salt);
  }

  /** The submitted code is never compared with the stored one: any two codes of six
      characters after trimming lead to the same outcome. */
  lemma CodeOnlyLengthChecked(db: Db, r: Registration, otherCode: string, now: int, salt: nat)
    requires |Trim(r.verificationCode)| == CODE_DIGITS && |Trim(otherCode)| == CODE_DIGITS
    ensures Register(db, r.(verificationCode := otherCode), now, salt) == Register(db, r, now, salt)
  {
    var r2 := r.(verificationCode := otherCode);
    assert r.verificationCode != [] && otherCode != [] by {
      TrimStartShape(r.verificationCode);
      TrimEndShape(TrimStart(r.verificationCode));
      TrimStartShape(otherCode);
      TrimEndShape(TrimStart(otherCode));
    }
    assert RegistrationError(r2) == RegistrationError(r);
    assert Enroll(db, r2, now, salt) == Enroll(db, r, now, salt);
  }

  /** A refused request check is decided before anything is looked up: the outcome depends
      on the request alone. */
  lemma RequestChecksFirst(db1: Db, db2: Db, r: Registration, now: int, salt: nat)
    requires RegistrationError(r).Some?
    ensures Register(db1, r, now, salt).reply == Register(db2, r, now, salt).reply == Failure(400, RegistrationError(r).value)
  {
  }

  /** The whole sign-up path: a fresh institutional address that is sent a code, enters it
      within two hours of the sending and registers within an hour of entering it gets an account. */
  lemma SignUpPath(db: Db, r: Registration, draw: nat, t0: int, t1: int, t2: int, salt: nat)
    requires draw < 900000 && RegistrationError(r).None? && !HasEmail(db.users, r.email)
    requires t0 <= t1 <= t0 + 2 * HOUR_MS && t1 <= t2 <= t1 + HOUR_MS
    ensures var sent := SendVerification(db, r.email, draw, t0);
            var verified := VerifyCodeRoute(sent.db, r.email, sent.reply.code, t1);
            && sent.reply.CodeSent? && verified.reply == CodeVerified
            && Register(verified.db, r, t2, salt).reply.UserCreated?
  {
    SendVerificationSpec(db, r.email, draw, t0);
    var sent := SendVerification(db, r.email, draw, t0);
    IssuedCodeLifetime(HourPastExpiry, db.codes, r.email, sent.reply.code, t0, t1);
    AcceptedIff(HourPastExpiry, sent.db.codes, r.email, sent.reply.code, t1);
    var verified := VerifyCodeRoute(sent.db, r.email, sent.reply.code, t1);
    RegisterSucceedsIff(verified.db, r, t2, salt);
  }

  // ----- POST /api/auth/login -----

  /** The lock is checked before the user is looked up; an unknown address and a wrong
      password are answered alike and both count as failures. */
  function Login(s: Server, email: string, password: string, now: int): Outcome
  {
    if email == [] || password == [] then Outcome(Failure(400, CREDENTIALS_REQUIRED), s)
    else
      var check := CheckLock(s.failed, email, now);
      if check.locked then Outcome(Failure(423, ACCOUNT_LOCKED), s.(failed := check.failed))
      else
        var refused := Outcome(Failure(401, INVALID_LOGIN), s.(failed := RecordFailedAttempt(check.failed, email, now)));
        match FindByEmail(s.db.users, email)
        case None => refused
        case Some(k) =>
          var u := s.db.users[k];
          if !PasswordMatches(password, u.password) then refused
          else
            var tokens := GenerateTokens(IdText(u.id), now);
            var stored := u.(lastLogin := Some(now), refreshToken := Some(tokens.refreshToken));
            Outcome(LoggedIn(Sanitize(u), tokens),
                    Server(s.db.(users := ReplaceFirstById(s.db.users, u.id, stored)),
                           RecordSuccessfulAttempt(check.failed, email)))
  }

  /** A locked address is answered 423 whatever the password and whether or not the user
      exists, and no failure is recorded. */
  lemma LockCheckedFirst(s: Server, email: string, password: string, now: int)
    requires email != [] && password != [] && CheckLock(s.failed, email, now).locked
    ensures Login(s, email, password, now) == Outcome(Failure(423, ACCOUNT_LOCKED), s)
  {
  }

  /** When no lock stands, an unknown address and a wrong password get the identical 401
      and record one failure for the address typed; the collections are not touched. */
  lemma FailedLoginsAlike(s: Server, email: string, password: string, now: int)
    requires email != [] && password != [] && !CheckLock(s.failed, email, now).locked
    requires !HasEmail(s.db.users, email) ||
             !PasswordMatches(password, s.db.users[FindByEmail(s.db.users, email).value].password)
    ensures Login(s, email, password, now) ==
            Outcome(Failure(401, INVALID_LOGIN), s.(failed := RecordFailedAttempt(CheckLock(s.failed, email, now).failed, email, now)))
  {
    if !HasEmail(s.db.users, email) {
      assert FindByEmail(s.db.users, email).None?;
    }
  }

  /** A login succeeds exactly with the right password for a known address that is not
      locked. It then clears the address's lockout entry, stamps `lastLogin`, stores the
      new refresh token on that user alone and answers with the user as it was before,
      minus password and refresh token. */
  lemma LoginSuccess(s: Server, email: string, password: string, now: int)
    requires ServerValid(s)
    ensures var o := Login(s, email, password, now);
            && (o.reply.LoggedIn? <==>
                 && email != [] && password != [] && !CheckLock(s.failed, email, now).locked
                 && HasEmail(s.db.users, email)
                 && PasswordMatches(password, s.db.users[FindByEmail(s.db.users, email).value].password))
            && (o.reply.LoggedIn? ==>
                 var k := FindByEmail(s.db.users, email).value;
                 var u := s.db.users[k];
                 && o.reply.user == Sanitize(u)
                 && o.reply.tokens == GenerateTokens(IdText(u.id), now)
                 && o.server.db == s.db.(users := s.db.users[k := u.(lastLogin := Some(now), refreshToken := Some(o.reply.tokens.refreshToken))])
                 && email !in o.server.failed
                 && ServerValid(o.server))
  {
    var o := Login(s, email, password, now);
    if HasEmail(s.db.users, email) {
      assert FindByEmail(s.db.users, email).Some?;
    }
    if o.reply.LoggedIn? {
      var k := FindByEmail(s.db.users, email).value;
      var u := s.db.users[k];
      var stored := u.(lastLogin := Some(now), refreshToken := Some(o.reply.tokens.refreshToken));
      ReplaceAtUniqueId(s.db.users, s.db.nextId, k, stored);
      ReplaceKeepsIdsValid(s.db.users, s.db.nextId, k, stored);
    }
  }

  /** A fifth failure within thirty minutes locks the address: even the right password is
      then refused 423 until thirty minutes after that failure. */
  lemma FifthFailureLocks(s: Server, email: string, wrong: string, password: string, now: int, later: int)
    requires email in s.failed && s.failed[email].count == LOCKOUT_THRESHOLD - 1
    requires Login(s, email, wrong, now).reply == Failure(401, INVALID_LOGIN)
    requires password != [] && now <= later < now + LOCKOUT_DURATION
    ensures Login(Login(s, email, wrong, now).server, email, password, later).reply == Failure(423, ACCOUNT_LOCKED)
  {
  }

  // ----- POST /api/auth/refresh -----

  /** A refresh token is honoured only if it verifies with the refresh secret and is the
      one stored on the user named in it; the stored token is then replaced. */
  function Refresh(s: Server, token: Option<Jwt>, now: int): Outcome
  {
    match token
    case None => Outcome(Failure(400, REFRESH_REQUIRED), s)
    case Some(t) =>
      if !Verifies(t, RefreshSecret) then Outcome(Failure(403, INVALID_REFRESH), s)
      else
        match FindByIdAndToken(s.db.users, t.userId, t)
        case None => Outcome(Failure(403, INVALID_REFRESH), s)
        case Some(k) =>
          var u := s.db.users[k];
          var tokens := GenerateTokens(IdText(u.id), now);
          Outcome(TokensRefreshed(tokens),
                  s.(db := s.db.(users := ReplaceFirstById(s.db.users, u.id, u.(refreshToken := Some(tokens.refreshToken))))))
  }

  /** Refresh succeeds exactly for a token signed with the refresh secret that some user
      named in it has stored; it then stores the new refresh token on that user alone.
      A missing token is a 400 and every other failure a 403, with nothing changed. */
  lemma RefreshSpec(s: Server, token: Option<Jwt>, now: int)
    requires ServerValid(s)
    ensures var o := Refresh(s, token, now);
            && (o.reply.TokensRefreshed? <==>
                 token.Some? && Verifies(token.value, RefreshSecret) &&
                 exists j :: 0 <= j < |s.db.users| && IdText(s.db.users[j].id) == token.value.userId && s.db.users[j].refreshToken == token)
            && (o.reply.TokensRefreshed? ==>
                 var k := FindByIdAndToken(s.db.users, token.value.userId, token.value).value;
                 && o.reply.tokens == GenerateTokens(token.value.userId, now)
                 && o.server == s.(db := s.db.(users := s.db.users[k := s.db.users[k].(refreshToken := Some(o.reply.tokens.refreshToken))]))
                 && ServerValid(o.server))
            && (!o.reply.TokensRefreshed? ==> o.server == s && o.reply == Failure(if token.None? then 400 else 403, if token.None? then REFRESH_REQUIRED else INVALID_REFRESH))
  {
    var o := Refresh(s, token, now);
    if token.Some? && Verifies(token.value, RefreshSecret) {
      var t := token.value;
      var f := FindByIdAndToken(s.db.users, t.userId, t);
      if f.Some? {
        var k := f.value;
        var stored := s.db.users[k].(refreshToken := Some(o.reply.tokens.refreshToken));
        ReplaceAtUniqueId(s.db.users, s.db.nextId, k, stored);
        ReplaceKeepsIdsValid(s.db.users, s.db.nextId, k, stored);
      }
    }
  }

  /** Only the user whose id is written in a token can hold it, when ids are unique. */
  lemma TokenOwner(users: seq<User>, nextId: nat, k: nat, t: Jwt)
    requires IdsValid(users, nextId) && k < |users| && t.userId == IdText(users[k].id) && users[k].refreshToken == Some(t)
    ensures FindByIdAndToken(users, t.userId, t) == Some(k)
  {
    var f := FindByIdAndToken(users, t.userId, t);
    assert f.Some?;
    NatToStringInjective(users[f.value].id, users[k].id);
  }

  /** Rotation: after a refresh the token presented is no longer honoured, unless the
      new one was minted in the same second and so is the very same token. */
  lemma RefreshRotates(s: Server, t: Jwt, now: int, later: int)
    requires ServerValid(s) && Refresh(s, Some(t), now).reply.TokensRefreshed?
    ensures var s1 := Refresh(s, Some(t), now).server;
            Refresh(s1, Some(t), later).reply.TokensRefreshed? <==> now / SECOND_MS == t.issuedAt
  {
    RefreshSpec(s, Some(t), now);
    var o := Refresh(s, Some(t), now);
    var s1 := o.server;
    var k := FindByIdAndToken(s.db.users, t.userId, t).value;
    var newToken := o.reply.tokens.refreshToken;
    assert s1.db.users[k].refreshToken == Some(newToken);
    assert newToken == Jwt(RefreshSecret, t.userId, now / SECOND_MS);
    RefreshSpec(s1, Some(t), later);
    if now / SECOND_MS == t.issuedAt {
      assert newToken == t;
      assert IdText(s1.db.users[k].id) == t.userId && s1.db.users[k].refreshToken == Some(t);
    }
    if Refresh(s1, Some(t), later).reply.TokensRefreshed? {
      var j :| 0 <= j < |s1.db.users| && IdText(s1.db.users[j].id) == t.userId && s1.db.users[j].refreshToken == Some(t);
      NatToStringInjective(s1.db.users[j].id, s1.db.users[k].id);
      assert j == k;
    }
  }

  // ----- the route as written -----

  /** The `_id` filter value as MongoDB compares it: an ObjectId never equals a string. */
  datatype BsonId = BObjectId(oid: nat) | BString(text: string)

  /** `users.findOne({ _id: value, refreshToken: token })` with the filter value as given. */
  function FindByBsonIdAndToken(users: seq<User>, id: BsonId, token: Jwt): (r: Option<nat>)
    ensures r.Some? ==> r.value < |users| && BObjectId(users[r.value].id) == id && users[r.value].refreshToken == Some(token)
    ensures r.None? <==> forall j :: 0 <= j < |users| ==> !(BObjectId(users[j].id) == id && users[j].refreshToken == Some(token))
  {
    if |users| == 0 then None
    else if BObjectId(users[0].id) == id && users[0].refreshToken == Some(token) then Some(0)
    else
      match FindByBsonIdAndToken(users[1..], id, token)
      case None => None
      case Some(k) => Some(k + 1)
  }

  /** A string filter value matches no stored ObjectId. */
  lemma {:induction false} StringIdMatchesNothing(users: seq<User>, text: string, token: Jwt)
    ensures FindByBsonIdAndToken(users, BString(text), token).None?
    decreases |users|
  {
    if |users| > 0 {
      StringIdMatchesNothing(users[1..], text, token);
    }
  }

  /** The refresh route as written: the `userId` claim, a string, is used as the `_id` filter. */
  function RefreshAsWritten(s: Server, token: Option<Jwt>, now: int): Outcome
  {
    match token
    case None => Outcome(Failure(400, REFRESH_REQUIRED), s)
    case Some(t) =>
      if !Verifies(t, RefreshSecret) then Outcome(Failure(403, INVALID_REFRESH), s)
      else
        match FindByBsonIdAndToken(s.db.users, BString(t.userId), t)
        case None => Outcome(Failure(403, INVALID_REFRESH), s)
        case Some(k) =>
          var u := s.db.users[k];
          var tokens := GenerateTokens(IdText(u.id), now);
          Outcome(TokensRefreshed(tokens),
                  s.(db := s.db.(users := ReplaceFirstById(s.db.users, u.id, u.(refreshToken := Some(tokens.refreshToken))))))
  }

  /** As written, the route refuses every token, including the one login has just issued,
      which the corrected route honours. */
  lemma RefreshAsWrittenRefusesLogin(s: Server, email: string, password: string, now: int, later: int)
    requires ServerValid(s) && Login(s, email, password, now).reply.LoggedIn?
    ensures var o := Login(s, email, password, now);
            && RefreshAsWritten(o.server, Some(o.reply.tokens.refreshToken), later).reply == Failure(403, INVALID_REFRESH)
            && Refresh(o.server, Some(o.reply.tokens.refreshToken), later).reply.TokensRefreshed?
  {
    LoginSuccess(s, email, password, now);
    var o := Login(s, email, password, now);
    var t := o.reply.tokens.refreshToken;
    StringIdMatchesNothing(o.server.db.users, t.userId, t);
    var k := FindByEmail(s.db.users, email).value;
    assert o.server.db.users[k].refreshToken == Some(t);
    TokenOwner(o.server.db.users, o.server.db.nextId, k, t);
  }

  // ----- the server object -----

  /** The server's state held in fields: the two collections, the next ObjectId and the
      lockout map. Each route handler performs one step. */
  class AuthServer {
    var codes: Codes
    var users: seq<User>
    var nextId: nat
    var failedAttempts: FailedAttempts

    function State(): Server
      reads this
    {
      Server(Db(codes, users, nextId), failedAttempts)
    }

    ghost predicate Valid()
      reads this
    {
      ServerValid(State())
    }

    constructor ()
      ensures State() == Server(Db(map[], [], 0), map[]) && Valid()
    {
      codes := map[];
      users := [];
      nextId := 0;
      failedAttempts := map[];
    }

    /** `isAccountLocked(email)`, which drops an entry whose lock is over. */
    method IsAccountLocked(email: string, now: int) returns (locked: bool)
      modifies this
      ensures LockCheck(locked, failedAttempts) == CheckLock(old(failedAttempts), email, now)
      ensures codes == old(codes) && users == old(users) && nextId == old(nextId)
    {
      if email !in failedAttempts {
        return false;
      }
      var attempts := failedAttempts[email];
      if attempts.count >= LOCKOUT_THRESHOLD {
        if now - attempts.lastAttempt < LOCKOUT_DURATION {
          return true;
        }
        failedAttempts := failedAttempts - {email};
        return false;
      }
      return false;
    }

    method RecordFailedAttempt(email: string, now: int)
      modifies this
      ensures failedAttempts == Lockout.RecordFailedAttempt(old(failedAttempts), email, now)
      ensures codes == old(codes) && users == old(users) && nextId == old(nextId)
    {
      var attempts := if email in failedAttempts then failedAttempts[email] else Attempts(0, 0);
      attempts := attempts.(count := attempts.count + 1);
      attempts := attempts.(lastAttempt := now);
      failedAttempts := failedAttempts[email := attempts];
    }

    method RecordSuccessfulAttempt(email: string)
      modifies this
      ensures failedAttempts == Lockout.RecordSuccessfulAttempt(old(failedAttempts), email)
      ensures codes == old(codes) && users == old(users) && nextId == old(nextId)
    {
      failedAttempts := failedAttempts - {email};
    }

    method PostSendVerification(email: string, draw: nat, now: int) returns (reply: Reply)
      requires draw < 900000
      modifies this
      ensures var o := SendVerification(old(State()).db, email, draw, now);
              reply == o.reply && State() == old(State()).(db := o.db)
    {
      if !EmailFormatOk(email) {
        return Failure(400, INVALID_EMAIL_FORMAT);
      }
      if !DomainAllowed(email) {
        return Failure(400, DOMAIN_REQUIRED);
      }
      var existing := FindByEmail(users, email);
      if existing.Some? {
        return Failure(400, EMAIL_TAKEN);
      }
      var code := GenerateVerificationCode(draw);
      codes := Issue(codes, email, code, now);
      reply := CodeSent(code);
    }

    method PostVerifyCode(email: string, code: string, now: int) returns (reply: Reply)
      modifies this
      ensures var o := VerifyCodeRoute(old(State()).db, email, code, now);
              reply == o.reply && State() == old(State()).(db := o.db)
    {
      if email !in codes {
        return Failure(400, NO_CODE_FOUND);
      }
      var rec := codes[email];
      if IsVerificationCodeExpired(rec.expiresAt, now) {
        codes := codes - {email};
        return Failure(400, CODE_EXPIRED);
      }
      if rec.code != code {
        codes := codes[email := rec.(attempts := rec.attempts + 1)];
        if rec.attempts >= MISSES_BEFORE_DELETE {
          codes := codes - {email};
          return Failure(400, TOO_MANY_ATTEMPTS);
        }
        return Failure(400, INVALID_CODE);
      }
      codes := codes[email := rec.(verifiedAt := Some(now))];
      reply := CodeVerified;
    }

    method PostVerifyEmail(email: string) returns (reply: Reply)
      ensures reply == CheckEmail(State().db, email)
    {
      if !EmailFormatOk(email) {
        return Failure(400, INVALID_EMAIL_FORMAT);
      }
      if !DomainAllowed(email) {
        return Failure(400, DOMAIN_REQUIRED);
      }
      var existing := FindByEmail(users, email);
      if existing.Some? {
        return Failure(400, EMAIL_TAKEN);
      }
      return EmailAvailable;
    }

    method PostRegister(r: Registration, now: int, salt: nat) returns (reply: Reply)
      modifies this
      ensures var o := Register(old(State()).db, r, now, salt);
              reply == o.reply && State() == old(State()).(db := o.db)
      ensures old(Valid()) ==> Valid()
    {
      RegisterSucceedsIff(State().db, r, now, salt);
      var error := RegistrationError(r);
      if error.Some? {
        return Failure(400, error.value);
      }
      var verifiedAt := VerifiedAt(codes, r.email);
      if verifiedAt.None? {
        return Failure(400, EMAIL_NOT_VERIFIED);
      }
      if VerificationTooOld(verifiedAt.value, now) {
        return Failure(400, VERIFICATION_EXPIRED);
      }
      var existing := FindByEmail(users, r.email);
      if existing.Some? {
        return Failure(400, USER_EXISTS);
      }
      EnrollCreates(State().db, r, now, salt);
      var u := Enrolled(State().db, r, now, salt);
      users := users + [u];
      nextId := nextId + 1;
      codes := codes - {r.email};
      reply := UserCreated(Sanitize(u));
    }

    method PostLogin(email: string, password: string, now: int) returns (reply: Reply)
      modifies this
      ensures Outcome(reply, State()) == Login(old(State()), email, password, now)
      ensures old(Valid()) ==> Valid()
    {
      if Valid() {
        LoginSuccess(State(), email, password, now);
      }
      if email == [] || password == [] {
        return Failure(400, CREDENTIALS_REQUIRED);
      }
      var locked := IsAccountLocked(email, now);
      if locked {
        return Failure(423, ACCOUNT_LOCKED);
      }
      var found := FindByEmail(users, email);
      if found.None? {
        RecordFailedAttempt(email, now);
        return Failure(401, INVALID_LOGIN);
      }
      var u := users[found.value];
      if !PasswordMatches(password, u.password) {
        RecordFailedAttempt(email, now);
        return Failure(401, INVALID_LOGIN);
      }
      RecordSuccessfulAttempt(email);
      var tokens := GenerateTokens(IdText(u.id), now);
      users := ReplaceFirstById(users, u.id, u.(lastLogin := Some(now), refreshToken := Some(tokens.refreshToken)));
      reply := LoggedIn(Sanitize(u), tokens);
    }

    method PostRefresh(token: Option<Jwt>, now: int) returns (reply: Reply)
      modifies this
      ensures Outcome(reply, State()) == Refresh(old(State()), token, now)
      ensures old(Valid()) ==> Valid()
    {
      if old(Valid()) {
        RefreshSpec(State(), token, now);
      }
      if token.None? {
        return Failure(400, REFRESH_REQUIRED);
      }
      var t := token.value;
      if !Verifies(t, RefreshSecret) {
        return Failure(403, INVALID_REFRESH);
      }
      var found := FindByIdAndToken(users, t.userId, t);
      if found.None? {
        return Failure(403, INVALID_REFRESH);
      }
      var u := users[found.value];
      var tokens := GenerateTokens(IdText(u.id), now);
      users := ReplaceFirstById(users, u.id, u.(refreshToken := Some(tokens.refreshToken)));
      reply := TokensRefreshed(tokens);
    }
  }
}
