/**
 * The browser-side session of src/lib/auth.ts: the institutional address test the
 * pages apply before talking to the server, and the signed-in user kept under one
 * key of the browser's local storage.
 */
module ClientAuth {
  import opened Prelude
  import opened Text
  import EmailRules

  // ----- isEmailAllowed -----

  /** `[A-Za-z0-9._%+-]`. */
  predicate LocalChar(c: char)
  {
    ('A' <= c <= 'Z') || ('a' <= c <= 'z') || ('0' <= c <= '9')
    || c == '.' || c == '_' || c == '%' || c == '+' || c == '-'
  }

  predicate AllLocal(s: string)
  {
    forall i :: 0 <= i < |s| ==> LocalChar(s[i])
  }

  const STUDENT_DOMAIN := "students.bowiestate.edu"
  const STUDENT_SUFFIX := "@" + STUDENT_DOMAIN

  /** `/^[A-Za-z0-9._%+-]+@students\.bowiestate\.edu$/.test(email)`: the address ends
      with the suffix, and what comes before it is one or more allowed characters. */
  predicate IsEmailAllowed(email: string)
  {
    var n := |email| - |STUDENT_SUFFIX|;
    n > 0 && email[n..] == STUDENT_SUFFIX && AllLocal(email[..n])
  }

  /** Allowed exactly when the address is a non-empty local part of allowed characters,
      an `@`, and the student domain, in that order. */
  lemma IsEmailAllowedIff(email: string)
    ensures IsEmailAllowed(email) <==> exists local :: local != [] && AllLocal(local) && email == local + STUDENT_SUFFIX
  {
    if IsEmailAllowed(email) {
      var n := |email| - |STUDENT_SUFFIX|;
      assert email == email[..n] + STUDENT_SUFFIX;
    }
    if exists local :: local != [] && AllLocal(local) && email == local + STUDENT_SUFFIX {
      var local :| local != [] && AllLocal(local) && email == local + STUDENT_SUFFIX;
      assert email[..|local|] == local;
      assert email[|local|..] == STUDENT_SUFFIX;
    }
  }

  /** An address the pages allow also passes both of the servers' address checks. */
  lemma AllowedPassesServerChecks(email: string)
    requires IsEmailAllowed(email)
    ensures EmailRules.EmailFormatOk(email) && EmailRules.DomainAllowed(email)
  {
    var n := |email| - |STUDENT_SUFFIX|;
    var local := email[..n];
    assert email == local + "@" + STUDENT_DOMAIN;
    assert forall i :: 0 <= i < |local| ==> LocalChar(local[i]);
    EmailRules.InstitutionalAddress(local, STUDENT_DOMAIN);
  }

  /** The servers also take staff addresses at `bowiestate.edu`, which the pages refuse. */
  lemma StaffAddressRefused()
    ensures !IsEmailAllowed("jo@bowiestate.edu")
    ensures EmailRules.EmailFormatOk("jo@bowiestate.edu") && EmailRules.DomainAllowed("jo@bowiestate.edu")
  {
    assert "jo@bowiestate.edu" == "jo" + "@" + "bowiestate.edu";
    EmailRules.InstitutionalAddress("jo", "bowiestate.edu");
  }

  // ----- the stored session -----

  const AUTH_USER_KEY := "eicUser"

  /** The user record the pages store (`_id` may be absent). */
  datatype SessionUser = SessionUser(email: string, firstName: string, lastName: string,
                                     studentId: string, id: Option<string>)

  /** Local storage, keyed by name; a stored value is never the empty string, so
      every stored user reads back. */
  type Storage = map<string, SessionUser>

  /** `getUser()`. */
  function StoredUser(storage: Storage): Option<SessionUser>
  {
    if AUTH_USER_KEY in storage then Some(storage[AUTH_USER_KEY]) else None
  }

  /** `user?.email || null`. */
  function EmailOf(storage: Storage): Option<string>
  {
    match StoredUser(storage)
    case None => None
    case Some(u) => if u.email == [] then None else Some(u.email)
  }

  /** `user?.firstName || null`. */
  function FirstNameOf(storage: Storage): Option<string>
  {
    match StoredUser(storage)
    case None => None
    case Some(u) => if u.firstName == [] then None else Some(u.firstName)
  }

  /** Storing a user and reading it back gives that user, and its e-mail address and
      first name unless empty; removing it leaves no user, address or first name.
      Both touch the session key alone. */
  lemma SessionRoundTrip(storage: Storage, u: SessionUser)
    ensures var s := storage[AUTH_USER_KEY := u];
            && StoredUser(s) == Some(u)
            && EmailOf(s) == (if u.email == [] then None else Some(u.email))
            && FirstNameOf(s) == (if u.firstName == [] then None else Some(u.firstName))
            && (forall k :: k != AUTH_USER_KEY ==> (k in s <==> k in storage) && (k in storage ==> s[k] == storage[k]))
    ensures var s := storage - {AUTH_USER_KEY};
            && StoredUser(s) == None && EmailOf(s) == None && FirstNameOf(s) == None
            && (forall k :: k != AUTH_USER_KEY ==> (k in s <==> k in storage) && (k in storage ==> s[k] == storage[k]))
  {
  }

  /** The browser's local storage as the session functions see it. */
  class SessionStore {
    var storage: Storage

    constructor (initial: Storage)
      ensures storage == initial
    {
      storage := initial;
    }

    /** `loginUser(user)`. */
    method LoginUser(user: SessionUser)
      modifies this
      ensures storage == old(storage)[AUTH_USER_KEY := user]
      ensures GetUser() == Some(user)
    {
      storage := storage[AUTH_USER_KEY := user];
    }

    /** `logoutUser()`. */
    method LogoutUser()
      modifies this
      ensures storage == old(storage) - {AUTH_USER_KEY}
      ensures GetUser() == None && GetUserEmail() == None && GetUserFirstName() == None
    {
      storage := storage - {AUTH_USER_KEY};
    }

    /** `getUser()`. */
    function GetUser(): Option<SessionUser>
      reads this
    {
      StoredUser(storage)
    }

    /** `getUserEmail()`. */
    function GetUserEmail(): Option<string>
      reads this
    {
      EmailOf(storage)
    }

    /** `getUserFirstName()`. */
    function GetUserFirstName(): Option<string>
      reads this
    {
      FirstNameOf(storage)
    }
  }
}
