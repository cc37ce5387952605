/**
 * What both servers do the same way over the two collections they share:
 * answering a code check, and the tail of registration from the lookup of a
 * verified record to the insertion of the new user.
 */
module Accounts {
  import opened Prelude
  import opened Text
  import opened Ledger
  import opened Users
  import opened Api

  /** The database `eic-pathfinder`: the `verificationCodes` and `users` collections,
      and the ObjectId the next `insertOne` hands out. */
  datatype Db = Db(codes: Codes, users: seq<User>, nextId: nat)

  predicate DbValid(db: Db)
  {
    IdsValid(db.users, db.nextId)
  }

  datatype DbOutcome = DbOutcome(reply: Reply, db: Db)

  /** The fields of a registration request. A field absent from the body, or empty, is `""`. */
  datatype Registration = Registration(email: string, password: string, firstName: string,
                                       lastName: string, studentId: string, verificationCode: string)

  /** `email && password && firstName && lastName && studentId && verificationCode`. */
  predicate AllPresent(r: Registration)
  {
    r.email != [] && r.password != [] && r.firstName != [] && r.lastName != [] && r.studentId != [] && r.verificationCode != []
  }

  const MIN_PASSWORD_LENGTH: nat := 8

  const NO_CODE_FOUND := "No verification code found for this email"
  const CODE_EXPIRED := "Verification code has expired. Please request a new one."
  const TOO_MANY_ATTEMPTS := "Too many failed attempts. Please request a new verification code."
  const INVALID_CODE := "Invalid verification code"
  const ALL_FIELDS_REQUIRED := "All fields are required"
  const PASSWORD_TOO_SHORT := "Password must be at least 8 characters long"
  const INVALID_EMAIL_FORMAT := "Invalid email format"
  const EMAIL_NOT_VERIFIED := "Email not verified. Please verify your email first."
  const VERIFICATION_EXPIRED := "Email verification expired. Please verify your email again."
  const USER_EXISTS := "User with this email already exists"
  const EMAIL_TAKEN := "Email already registered"

  /** The verify-code handler: every failure is a 400 with its own message. */
  function VerifyCode(rule: ExpiryRule, db: Db, email: string, code: string, now: int): (o: DbOutcome)
    ensures o.db.users == db.users && o.db.nextId == db.nextId
    ensures o.reply == CodeVerified <==> CheckCode(rule, db.codes, email, code, now).result == CodeAccepted
    ensures o.reply != CodeVerified ==> o.reply.Failure? && o.reply.status == 400
  {
    var c := CheckCode(rule, db.codes, email, code, now);
    var reply := match c.result
      case NoRecord => Failure(400, NO_CODE_FOUND)
      case CodeExpired => Failure(400, CODE_EXPIRED)
      case TooManyAttempts => Failure(400, TOO_MANY_ATTEMPTS)
      case WrongCode => Failure(400, INVALID_CODE)
      case CodeAccepted => CodeVerified;
    DbOutcome(reply, db.(codes := c.codes))
  }

  /** The document registration inserts for a request, with the password hashed under `salt`. */
  function Enrolled(db: Db, r: Registration, now: int, salt: nat): User
  {
    NewUser(db.nextId, r.email, Hash(r.password, salt), Trim(r.firstName), Trim(r.lastName), Trim(r.studentId), now)
  }

  /** Registration from the `findOne({ email, verified: true })` lookup on: a verified
      record no older than an hour and no user with that address are needed; the
      user is then inserted and the verification record deleted. */
  function Enroll(db: Db, r: Registration, now: int, salt: nat): DbOutcome
  {
    match VerifiedAt(db.codes, r.email)
    case None => DbOutcome(Failure(400, EMAIL_NOT_VERIFIED), db)
    case Some(verifiedAt) =>
      if VerificationTooOld(verifiedAt, now) then DbOutcome(Failure(400, VERIFICATION_EXPIRED), db)
      else if FindByEmail(db.users, r.email).Some? then DbOutcome(Failure(400, USER_EXISTS), db)
      else
        var u := Enrolled(db, r, now, salt);
        DbOutcome(UserCreated(Sanitize(u)), Db(db.codes - {r.email}, db.users + [u], db.nextId + 1))
  }

  /** Enrolment succeeds exactly for a fresh verification of an unused address;
      a refusal is a 400 and changes nothing. */
  lemma EnrollSucceedsIff(db: Db, r: Registration, now: int, salt: nat)
    ensures var o := Enroll(db, r, now, salt);
            && (o.reply.UserCreated? <==>
                 && VerifiedAt(db.codes, r.email).Some?
                 && !VerificationTooOld(VerifiedAt(db.codes, r.email).value, now)
                 && !HasEmail(db.users, r.email))
            && (!o.reply.UserCreated? ==> o.db == db && o.reply.Failure? && o.reply.status == 400)
  {
    if FindByEmail(db.users, r.email).Some? {
      assert db.users[FindByEmail(db.users, r.email).value].email == r.email;
    }
  }

  /** A successful enrolment appends one user (trimmed names and student id, phase 1
      current, `unlocked: [1]`), answers with that user minus the password, deletes
      that address's record alone and keeps the ids valid. */
  lemma EnrollCreates(db: Db, r: Registration, now: int, salt: nat)
    requires Enroll(db, r, now, salt).reply.UserCreated?
    ensures var o := Enroll(db, r, now, salt);
            var u := o.db.users[|db.users|];
            && o.db.users == db.users + [u]
            && u.email == r.email && PasswordMatches(r.password, u.password)
            && u.firstName == Trim(r.firstName) && u.lastName == Trim(r.lastName) && u.studentId == Trim(r.studentId)
            && u.currentPhase == 1 && u.progress == Progress([], [1]) && u.createdAt == now
            && o.reply.user == Sanitize(u)
            && o.db.codes == db.codes - {r.email}
            && (DbValid(db) ==> DbValid(o.db))
  {
    var u := Enrolled(db, r, now, salt);
    var o := Enroll(db, r, now, salt);
    assert o == DbOutcome(UserCreated(Sanitize(u)), Db(db.codes - {r.email}, db.users + [u], db.nextId + 1));
    assert o.db.users[|db.users|] == u;
    if DbValid(db) {
      InsertKeepsIdsValid(db.users, db.nextId, u);
    }
  }

  /** Once an address has registered its record is gone, so asking again is answered
      "not verified" rather than "already exists". */
  lemma EnrollTwice(db: Db, r: Registration, now: int, salt: nat, later: int, salt2: nat)
    requires Enroll(db, r, now, salt).reply.UserCreated?
    ensures Enroll(Enroll(db, r, now, salt).db, r, later, salt2).reply == Failure(400, EMAIL_NOT_VERIFIED)
  {
  }
}
