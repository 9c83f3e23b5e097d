/**
What the store keeps of TOTP: when an enrollment lapses, how refusals lock it, and which period's code was accepted
last. The HMAC is abstract: what a code matches is a parameter, one of the three periods around the clock.
*/
module Totp {
  import opened Wrappers

  const PERIOD_SECONDS: int := 30
  const ENROLLMENT_TTL_SECONDS: int := 900
  const FAILURE_LIMIT: int := 5
  const LOCK_SECONDS: int := 300
  const MAX_LOCK_SECONDS: int := 14_400
  const MAX_FAILURES: int := 1_000_000

  datatype Status = Pending | Active

  datatype Factor = Factor(
    status: Status, secret: nat, createdAt: int, resumedAt: int, expiresAt: Option<int>, failures: int,
    lockedUntil: Option<int>, lastAcceptedStep: Option<int>, activatedAt: Option<int>)

  datatype Verification = Accepted | Invalid | Locked | Expired | Changed

  /** The exact contract of a stored factor. */
  predicate Validated(factor: Factor) {
    && PERIOD_SECONDS <= factor.createdAt <= factor.resumedAt
    && 0 <= factor.failures <= MAX_FAILURES
    && match factor.status
       case Pending =>
         && factor.expiresAt == Some(factor.resumedAt + ENROLLMENT_TTL_SECONDS)
         && factor.lastAcceptedStep.None? && factor.activatedAt.None?
       case Active =>
         factor.expiresAt.None? && factor.activatedAt.Some? && factor.activatedAt.value >= factor.createdAt
  }

  function NewFactor(secret: nat, now: int): Factor {
    Factor(Pending, secret, now, now, Some(now + ENROLLMENT_TTL_SECONDS), 0, None, None, None)
  }

  /** A pending factor whose window starts anew, or nothing when that makes none. */
  function Resumed(factor: Factor, now: int): Option<Factor> {
    if !Validated(factor) || factor.status.Active? then None
    else
      var resumed := factor.(resumedAt := now, expiresAt := Some(now + ENROLLMENT_TTL_SECONDS));
      if Validated(resumed) then Some(resumed) else None
  }

  function Doubled(seconds: int, times: nat): int
    decreases times
  {
    if times == 0 then seconds else Doubled(2 * seconds, times - 1)
  }

  function Min(one: int, other: int): int {
    if one < other then one else other
  }

  /** How long so many refused codes in a row lock the factor: the shift is bounded, and so is the lock. */
  function LockSeconds(failures: int): int {
    if failures < FAILURE_LIMIT then 0
    else Min(Doubled(LOCK_SECONDS, Min(failures - FAILURE_LIMIT, 16)), MAX_LOCK_SECONDS)
  }

  lemma {:induction false} DoubledGrows(seconds: int, times: nat)
    requires seconds >= 0
    ensures Doubled(seconds, times) >= seconds
    decreases times
  {
    if times > 0 {
      DoubledGrows(2 * seconds, times - 1);
    }
  }

  lemma {:induction false} DoubledSplits(seconds: int, times: nat, more: nat)
    ensures Doubled(seconds, times + more) == Doubled(Doubled(seconds, times), more)
    decreases times
  {
    if times > 0 {
      DoubledSplits(2 * seconds, times - 1, more);
    }
  }

  /** The bound on the shift changes no lock: each refusal past the limit doubles it up to four hours. */
  lemma LockDoubles(failures: int)
    requires failures >= FAILURE_LIMIT
    ensures LockSeconds(failures) == Min(Doubled(LOCK_SECONDS, failures - FAILURE_LIMIT), MAX_LOCK_SECONDS)
  {
    if failures - FAILURE_LIMIT > 16 {
      DoubledSplits(LOCK_SECONDS, 6, 10);
      DoubledSplits(LOCK_SECONDS, 6, failures - FAILURE_LIMIT - 6);
      assert Doubled(LOCK_SECONDS, 6) == 19_200;
      DoubledGrows(19_200, 10);
      DoubledGrows(19_200, failures - FAILURE_LIMIT - 6);
    }
  }

  function RecordFailure(factor: Factor, now: int): (Factor, Verification) {
    var failures := Min(factor.failures + 1, MAX_FAILURES);
    var seconds := LockSeconds(failures);
    if seconds > 0 then (factor.(failures := failures, lockedUntil := Some(now + seconds)), Locked)
    else (factor.(failures := failures), Invalid)
  }

  predicate IsLocked(factor: Factor, now: int) {
    factor.lockedUntil.Some? && factor.lockedUntil.value > now
  }

  /** The step a code matches is one of the three around the clock. */
  predicate Matches(matched: Option<int>, now: int) {
    matched.Some? ==> now / PERIOD_SECONDS - 1 <= matched.value <= now / PERIOD_SECONDS + 1
  }

  predicate IsNew(factor: Factor, matched: Option<int>) {
    matched.Some? && (factor.lastAcceptedStep.Some? ==> matched.value > factor.lastAcceptedStep.value)
  }

  /** What an attempt leaves in the factor: which period it accepted, or how far its refusals lock it. */
  function Verify(factor: Factor, matched: Option<int>, now: int): (Factor, Verification)
    requires Validated(factor)
  {
    if factor.status.Pending? && now > factor.expiresAt.value then (factor, Expired)
    else if IsLocked(factor, now) then (factor, Locked)
    else if !IsNew(factor, matched) then RecordFailure(factor, now)
    else
      var accepted := factor.(lastAcceptedStep := matched, failures := 0, lockedUntil := None);
      if factor.status.Pending?
      then (accepted.(status := Active, expiresAt := None, activatedAt := Some(now)), Accepted)
      else (accepted, Accepted)
  }

  /** The code is new to a factor that is neither locked nor past its enrollment's window. */
  predicate Accepts(factor: Factor, matched: Option<int>, now: int)
    requires Validated(factor)
  {
    IsNew(factor, matched) && !IsLocked(factor, now) && (factor.status.Pending? ==> now <= factor.expiresAt.value)
  }

  /** An attempt leaves a valid factor exactly when it would not activate one before the clock of its creation. */
  lemma VerifyKeepsValid(factor: Factor, matched: Option<int>, now: int)
    requires Validated(factor)
    ensures Verify(factor, matched, now).1.Accepted? <==> Accepts(factor, matched, now)
    ensures Validated(Verify(factor, matched, now).0) <==>
            !(factor.status.Pending? && now < factor.createdAt && Accepts(factor, matched, now))
  {
  }

  /** A code is accepted at most once: its step is past the last accepted one and becomes it. */
  lemma AcceptedStepsRise(factor: Factor, matched: Option<int>, now: int)
    requires Validated(factor)
    ensures var (next, result) := Verify(factor, matched, now);
      && (result.Accepted? ==> next.lastAcceptedStep == matched && IsNew(factor, matched) && !IsLocked(factor, now))
      && (result.Accepted? ==> next.failures == 0 && next.lockedUntil.None?)
      && (!result.Accepted? ==> next.lastAcceptedStep == factor.lastAcceptedStep && next.status == factor.status)
      && next.secret == factor.secret
  {
  }

  /** While the lock holds nothing is evaluated, and a refusal that locks doubles the lock. */
  lemma RefusalsLock(factor: Factor, matched: Option<int>, now: int)
    requires Validated(factor) && !(factor.status.Pending? && now > factor.expiresAt.value) && !IsNew(factor, matched)
    ensures var (next, result) := Verify(factor, matched, now);
      && (IsLocked(factor, now) ==> next == factor && result.Locked?)
      && (!IsLocked(factor, now) ==> next.failures == Min(factor.failures + 1, MAX_FAILURES) && !result.Accepted?)
      && (!IsLocked(factor, now) && factor.failures + 1 < FAILURE_LIMIT ==>
            result.Invalid? && next.lockedUntil == factor.lockedUntil)
      && (!IsLocked(factor, now) && FAILURE_LIMIT <= factor.failures + 1 <= MAX_FAILURES ==>
            result.Locked?
            && next.lockedUntil
               == Some(now + Min(Doubled(LOCK_SECONDS, factor.failures + 1 - FAILURE_LIMIT), MAX_LOCK_SECONDS)))
  {
    if FAILURE_LIMIT <= factor.failures + 1 <= MAX_FAILURES {
      LockDoubles(factor.failures + 1);
      DoubledGrows(LOCK_SECONDS, factor.failures + 1 - FAILURE_LIMIT);
    }
  }
}
