/**
 * The `verificationCodes` collection: one record per e-mail address holding the
 * last code issued, its expiry instant, the number of wrong guesses and, once a
 * correct code has been entered, the instant of verification. Both servers keep
 * it the same way; they differ only in when a code counts as expired.
 */
module Ledger {
  import opened Prelude
  import opened Text

  /** `{ code, expiresAt, attempts, verified, verifiedAt }`. The two verification
      fields are always written together, so `verifiedAt` being present stands
      for `verified: true`. */
  datatype VerificationRecord = VerificationRecord(code: string, expiresAt: int, attempts: nat, verifiedAt: Option<int>)

  type Codes = map<string, VerificationRecord>

  /** A code is good for one hour from its issue (`expiresAt = Date.now() + 1h`). */
  const CODE_VALIDITY_MS: int := HOUR_MS
  /** A verification is good for one hour for registering. */
  const VERIFICATION_FRESHNESS_MS: int := HOUR_MS
  /** The wrong guess made when `attempts` already holds this many deletes the record. */
  const MISSES_BEFORE_DELETE: nat := 2

  /** `Math.floor(100000 + Math.random() * 900000).toString()`, with
      `draw = Math.floor(Math.random() * 900000)` as the parameter. */
  function GenerateVerificationCode(draw: nat): (code: string)
    requires draw < 900000
    ensures |code| == 6 && AllDigits(code)
    ensures ParseNat(code) == Some(100000 + draw)
  {
    assert Pow10(5) == 100000 && Pow10(6) == 1000000;
    DecimalLength(100000 + draw, 5);
    ParseNatToString(100000 + draw);
    NatToString(100000 + draw)
  }

  /** Different draws give different codes, so every six-digit number from 100000 to 999999 can be issued. */
  lemma DistinctDraws(d1: nat, d2: nat)
    requires d1 < 900000 && d2 < 900000 && d1 != d2
    ensures GenerateVerificationCode(d1) != GenerateVerificationCode(d2)
  {
    assert ParseNat(GenerateVerificationCode(d1)) != ParseNat(GenerateVerificationCode(d2));
  }

  /** `isVerificationCodeExpired(createdAt)` of server/index.js: more than an hour has passed since the instant given. */
  predicate IsVerificationCodeExpired(createdAt: int, now: int)
  {
    now - createdAt > HOUR_MS
  }

  /** How a server decides that a stored record has expired. server/index.js passes
      `expiresAt` to `isVerificationCodeExpired`; simple-unified-server.js tests `now > expiresAt`. */
  datatype ExpiryRule = HourPastExpiry | PastExpiry

  predicate Expired(rule: ExpiryRule, expiresAt: int, now: int)
  {
    match rule
    case HourPastExpiry => IsVerificationCodeExpired(expiresAt, now)
    case PastExpiry => now > expiresAt
  }

  /** How long after its issue a code is still accepted under each rule. */
  function Lifetime(rule: ExpiryRule): int
  {
    match rule
    case HourPastExpiry => 2 * HOUR_MS
    case PastExpiry => HOUR_MS
  }

  /** The upsert `updateOne({ email }, { $set: { code, expiresAt, attempts: 0 } }, { upsert: true })`. */
  function Issue(codes: Codes, email: string, code: string, now: int): (r: Codes)
    ensures email in r && r[email].code == code && r[email].expiresAt == now + CODE_VALIDITY_MS && r[email].attempts == 0
    ensures r[email].verifiedAt == (if email in codes then codes[email].verifiedAt else None)
    ensures r.Keys == codes.Keys + {email}
    ensures forall e :: e in codes && e != email ==> r[e] == codes[e]
  {
    var verifiedAt := if email in codes then codes[email].verifiedAt else None;
    codes[email := VerificationRecord(code, now + CODE_VALIDITY_MS, 0, verifiedAt)]
  }

  /** A freshly issued code is accepted until `Lifetime(rule)` after its issue, inclusive:
      two hours under server/index.js, one hour under simple-unified-server.js. */
  lemma IssuedCodeLifetime(rule: ExpiryRule, codes: Codes, email: string, code: string, issuedAt: int, now: int)
    ensures !Expired(rule, Issue(codes, email, code, issuedAt)[email].expiresAt, now) <==> now <= issuedAt + Lifetime(rule)
  {
  }

  /** The result of checking a submitted code. */
  datatype CheckResult = NoRecord | CodeExpired | TooManyAttempts | WrongCode | CodeAccepted

  datatype CheckOutcome = CheckOutcome(result: CheckResult, codes: Codes)

  /** The verify-code handler's effect on the collection. An expired record is deleted
      before the code is looked at; a wrong code raises `attempts` and, when the value
      before raising was already `MISSES_BEFORE_DELETE`, deletes the record. */
  function CheckCode(rule: ExpiryRule, codes: Codes, email: string, code: string, now: int): CheckOutcome
  {
    if email !in codes then CheckOutcome(NoRecord, codes)
    else
      var rec := codes[email];
      if Expired(rule, rec.expiresAt, now) then CheckOutcome(CodeExpired, codes - {email})
      else if rec.code != code then
        var raised := codes[email := rec.(attempts := rec.attempts + 1)];
        if rec.attempts >= MISSES_BEFORE_DELETE then CheckOutcome(TooManyAttempts, raised - {email})
        else CheckOutcome(WrongCode, raised)
      else CheckOutcome(CodeAccepted, codes[email := rec.(verifiedAt := Some(now))])
  }

  /** A code is accepted exactly when a record exists, has not expired and holds that code;
      acceptance stamps the verification and changes nothing else. */
  lemma AcceptedIff(rule: ExpiryRule, codes: Codes, email: string, code: string, now: int)
    ensures var o := CheckCode(rule, codes, email, code, now);
            && (o.result == CodeAccepted <==>
                 email in codes && !Expired(rule, codes[email].expiresAt, now) && codes[email].code == code)
            && (o.result == CodeAccepted ==> o.codes == codes[email := codes[email].(verifiedAt := Some(now))])
  {
  }

  /** Expiry is decided first: an expired record is deleted whatever code is submitted. */
  lemma ExpiryBeforeComparison(rule: ExpiryRule, codes: Codes, email: string, code: string, now: int)
    requires email in codes && Expired(rule, codes[email].expiresAt, now)
    ensures CheckCode(rule, codes, email, code, now) == CheckOutcome(CodeExpired, codes - {email})
  {
  }

  /** A check touches the record of the address checked and no other. */
  lemma CheckTouchesOneRecord(rule: ExpiryRule, codes: Codes, email: string, code: string, now: int, other: string)
    requires other != email
    ensures var o := CheckCode(rule, codes, email, code, now);
            (other in o.codes <==> other in codes) && (other in codes ==> o.codes[other] == codes[other])
  {
  }

  /** Starting from a fresh code, the first and second wrong guesses are answered
      "invalid" and counted; the third deletes the record, after which even the
      right code finds nothing. */
  lemma ThirdMissDeletes(rule: ExpiryRule, codes: Codes, email: string, wrong: string, right: string,
                         t1: int, t2: int, t3: int, t4: int)
    requires email in codes && codes[email].attempts == 0 && codes[email].code == right && wrong != right
    requires !Expired(rule, codes[email].expiresAt, t1) && !Expired(rule, codes[email].expiresAt, t2)
    requires !Expired(rule, codes[email].expiresAt, t3)
    ensures var o1 := CheckCode(rule, codes, email, wrong, t1);
            var o2 := CheckCode(rule, o1.codes, email, wrong, t2);
            var o3 := CheckCode(rule, o2.codes, email, wrong, t3);
            var o4 := CheckCode(rule, o3.codes, email, right, t4);
            && o1.result == WrongCode && o1.codes[email].attempts == 1
            && o2.result == WrongCode && o2.codes[email].attempts == 2
            && o3.result == TooManyAttempts && email !in o3.codes
            && o4.result == NoRecord
  {
    var o1 := CheckCode(rule, codes, email, wrong, t1);
    assert o1.codes[email] == codes[email].(attempts := 1);
    var o2 := CheckCode(rule, o1.codes, email, wrong, t2);
    assert o2.codes[email] == codes[email].(attempts := 2);
  }

  /** Re-issuing a code keeps an earlier verification: the new code need not be entered
      for registration to go through, so long as the old verification is fresh. */
  lemma ReissueKeepsVerification(rule: ExpiryRule, codes: Codes, email: string, code: string,
                                 verifiedNow: int, newCode: string, now: int)
    requires CheckCode(rule, codes, email, code, verifiedNow).result == CodeAccepted
    ensures var verified := CheckCode(rule, codes, email, code, verifiedNow).codes;
            VerifiedAt(Issue(verified, email, newCode, now), email) == Some(verifiedNow)
  {
  }

  /** `findOne({ email, verified: true })`, reduced to the verification instant it yields. */
  function VerifiedAt(codes: Codes, email: string): Option<int>
  {
    if email in codes then codes[email].verifiedAt else None
  }

  /** `new Date() - verifiedAt > 60 * 60 * 1000`. */
  predicate VerificationTooOld(verifiedAt: int, now: int)
  {
    now - verifiedAt > VERIFICATION_FRESHNESS_MS
  }

  /** Right after a correct code, the address counts as verified for registration
      for exactly one hour. */
  lemma VerificationWindow(rule: ExpiryRule, codes: Codes, email: string, code: string, verifiedNow: int, now: int)
    requires CheckCode(rule, codes, email, code, verifiedNow).result == CodeAccepted
    ensures var v := VerifiedAt(CheckCode(rule, codes, email, code, verifiedNow).codes, email);
            v == Some(verifiedNow) && (!VerificationTooOld(v.value, now) <==> now <= verifiedNow + HOUR_MS)
  {
  }
}
