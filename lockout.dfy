/**
 * Per-address login lockout of server/index.js: an in-memory map from the
 * e-mail address typed at login to its failure count and the instant of the
 * last failure. Five failures lock the address until thirty minutes have passed
 * since the last one; the entry is dropped lazily, when a lock check finds the
 * lock over.
 */
module Lockout {
  import opened Prelude

  datatype Attempts = Attempts(count: nat, lastAttempt: int)

  type FailedAttempts = map<string, Attempts>

  const LOCKOUT_THRESHOLD: nat := 5
  const LOCKOUT_DURATION: int := 30 * MINUTE_MS

  datatype LockCheck = LockCheck(locked: bool, failed: FailedAttempts)

  /** `isAccountLocked(email)`: its answer and the map it leaves behind. */
  function CheckLock(failed: FailedAttempts, email: string, now: int): LockCheck
  {
    if email !in failed then LockCheck(false, failed)
    else if failed[email].count >= LOCKOUT_THRESHOLD then
      if now - failed[email].lastAttempt < LOCKOUT_DURATION then LockCheck(true, failed)
      else LockCheck(false, failed - {email})
    else LockCheck(false, failed)
  }

  /** `recordFailedAttempt(email)`: an absent entry counts as `{ count: 0, lastAttempt: 0 }`. */
  function RecordFailedAttempt(failed: FailedAttempts, email: string, now: int): FailedAttempts
  {
    var prior := if email in failed then failed[email].count else 0;
    failed[email := Attempts(prior + 1, now)]
  }

  /** `recordSuccessfulAttempt(email)`. */
  function RecordSuccessfulAttempt(failed: FailedAttempts, email: string): FailedAttempts
  {
    failed - {email}
  }

  /** Locked exactly when five or more failures are recorded and the last is under
      thirty minutes old. A check that finds such a lock over deletes the entry;
      any other check leaves the map as it was. */
  lemma CheckLockSpec(failed: FailedAttempts, email: string, now: int)
    ensures var c := CheckLock(failed, email, now);
            && (c.locked <==> email in failed && failed[email].count >= LOCKOUT_THRESHOLD
                              && now - failed[email].lastAttempt < LOCKOUT_DURATION)
            && (if email in failed && failed[email].count >= LOCKOUT_THRESHOLD
                   && now - failed[email].lastAttempt >= LOCKOUT_DURATION
                then c.failed == failed - {email} else c.failed == failed)
  {
  }

  /** A failure raises that address's count by exactly one, stamps it with `now`
      and leaves every other address's entry as it was. */
  lemma RecordFailedSpec(failed: FailedAttempts, email: string, now: int)
    ensures var f := RecordFailedAttempt(failed, email, now);
            && email in f && f[email].lastAttempt == now
            && f[email].count == (if email in failed then failed[email].count else 0) + 1
            && f.Keys == failed.Keys + {email}
            && (forall e :: e in failed && e != email ==> f[e] == failed[e])
  {
  }

  /** A success removes the address's entry alone. */
  lemma RecordSuccessSpec(failed: FailedAttempts, email: string)
    ensures var f := RecordSuccessfulAttempt(failed, email);
            && email !in f && f.Keys == failed.Keys - {email}
            && (forall e :: e in f ==> f[e] == failed[e])
  {
  }

  /** The map after a run of failures for one address at the given instants. */
  function FailAt(failed: FailedAttempts, email: string, times: seq<int>): FailedAttempts
  {
    if |times| == 0 then failed
    else RecordFailedAttempt(FailAt(failed, email, times[..|times| - 1]), email, times[|times| - 1])
  }

  /** Failures accumulate with no time window: n failures from a clean slate give
      a count of n, however far apart they are. */
  lemma {:induction false} FailuresAccumulate(failed: FailedAttempts, email: string, times: seq<int>)
    requires email !in failed && |times| > 0
    ensures var f := FailAt(failed, email, times);
            email in f && f[email] == Attempts(|times|, times[|times| - 1])
  {
    if |times| > 1 {
      FailuresAccumulate(failed, email, times[..|times| - 1]);
    }
  }

  /** Below the threshold an address is never locked and the check changes nothing. */
  lemma BelowThresholdNeverLocked(failed: FailedAttempts, email: string, now: int)
    requires email in failed ==> failed[email].count < LOCKOUT_THRESHOLD
    ensures CheckLock(failed, email, now) == LockCheck(false, failed)
  {
  }

  /** Five failures lock the address for thirty minutes after the fifth; the first
      check after that drops the entry, so the next failure starts again from one. */
  lemma FiveFailuresLock(failed: FailedAttempts, email: string, times: seq<int>, now: int, later: int)
    requires email !in failed && |times| == LOCKOUT_THRESHOLD
    requires now - times[4] < LOCKOUT_DURATION && later - times[4] >= LOCKOUT_DURATION
    ensures var f := FailAt(failed, email, times);
            && CheckLock(f, email, now).locked
            && var c := CheckLock(f, email, later);
               && !c.locked && email !in c.failed
               && RecordFailedAttempt(c.failed, email, later)[email].count == 1
  {
    FailuresAccumulate(failed, email, times);
  }
}
