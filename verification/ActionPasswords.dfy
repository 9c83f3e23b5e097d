/**
The Action password ceremony: three wrong passwords lock it for a minute, and only a verified one forgives earlier ones.
The ceremony is serialized, so each check begins after the one before it ended, on a clock that never goes back.
*/
module ActionPasswords {

  const MAX_PASSWORD_ATTEMPTS: nat := 3
  const PASSWORD_LOCK_MS: int := 60_000
  const MAX_AUTH_SECRET_CHARS: nat := 4096
  const KIND := "auth:password"

  /** How one check of a password against the record ended. */
  datatype Outcome = Verified | Wrong | Unable

  /** One check that ran, when it began and when its answer was known. */
  datatype Check = Check(begun: int, ended: int, outcome: Outcome)

  datatype Answer = Accepted | Denied(remaining: nat) | Locked(seconds: int) | Unavailable

  /** What a check ends with: `matches` is the password function's verdict, when it and the record can be read. */
  function Verify(kind: string, secret: string, matches: bool, readable: bool): Outcome {
    if kind != KIND || !(1 <= |secret| <= MAX_AUTH_SECRET_CHARS) || !readable then Unable
    else if matches then Verified else Wrong
  }

  /** The wrong checks since the last verified one. */
  function WrongChecks(log: seq<Check>): seq<Check> {
    if log == [] then []
    else
      var last := log[|log| - 1];
      match last.outcome
      case Verified => []
      case Wrong => WrongChecks(log[..|log| - 1]) + [last]
      case Unable => WrongChecks(log[..|log| - 1])
  }

  /** Exactly the wrong checks that no verified one followed, in order. */
  lemma {:induction false} WrongChecksAreSinceVerified(log: seq<Check>)
    ensures forall check <- WrongChecks(log) :: check.outcome.Wrong?
    ensures forall i | 0 <= i < |log| && log[i].outcome.Wrong? && !VerifiedSince(log, i) :: log[i] in WrongChecks(log)
    ensures forall check <- WrongChecks(log) :: exists i :: 0 <= i < |log| && log[i] == check && !VerifiedSince(log, i)
  {
    if log != [] {
      var rest, last := log[..|log| - 1], log[|log| - 1];
      WrongChecksAreSinceVerified(rest);
      if last.outcome.Verified? {
        assert forall i | 0 <= i < |log| - 1 :: VerifiedSince(log, i);
      } else {
        forall i | 0 <= i < |rest| ensures VerifiedSince(rest, i) <==> VerifiedSince(log, i) {}
        forall check <- WrongChecks(log)
          ensures exists i :: 0 <= i < |log| && log[i] == check && !VerifiedSince(log, i)
        {
          if check in WrongChecks(rest) {
            var i :| 0 <= i < |rest| && rest[i] == check && !VerifiedSince(rest, i);
            assert log[i] == check && !VerifiedSince(log, i);
          } else {
            assert log[|log| - 1] == check && !VerifiedSince(log, |log| - 1);
          }
        }
      }
    }
  }

  predicate VerifiedSince(log: seq<Check>, i: nat) {
    exists j :: i < j < |log| && log[j].outcome.Verified?
  }

  /** Whether the latest wrong check completed a third. */
  predicate Thirds(log: seq<Check>) {
    |WrongChecks(log)| > 0 && |WrongChecks(log)| % MAX_PASSWORD_ATTEMPTS == 0
  }

  /** The lock a log imposes: a minute from the end of each third wrong check. */
  predicate LockedAt(log: seq<Check>, now: int) {
    Thirds(log) && now < WrongChecks(log)[|WrongChecks(log)| - 1].ended + PASSWORD_LOCK_MS
  }

  /** One check after another, and none while the lock of those before it holds. */
  ghost predicate Lawful(log: seq<Check>) {
    log == []
    || (Lawful(log[..|log| - 1]) && MayFollow(log[..|log| - 1], log[|log| - 1]))
  }

  predicate MayFollow(log: seq<Check>, check: Check) {
    && check.begun <= check.ended && !LockedAt(log, check.begun)
    && (log != [] ==> log[|log| - 1].ended <= check.begun)
  }

  // ---- How far wrong checks spread ----

  lemma {:induction false} PrefixLawful(log: seq<Check>, n: nat)
    requires Lawful(log) && n <= |log|
    ensures Lawful(log[..n])
    ensures n < |log| ==> MayFollow(log[..n], log[n])
    decreases |log|
  {
    if n < |log| {
      var shorter := log[..|log| - 1];
      assert shorter[..n] == log[..n];
      PrefixLawful(shorter, n);
    } else {
      assert log[..n] == log;
    }
  }

  lemma {:induction false} WrongChecksEndInOrder(log: seq<Check>, k: nat)
    requires Lawful(log) && k < |WrongChecks(log)|
    ensures WrongChecks(log)[k].begun <= WrongChecks(log)[k].ended <= log[|log| - 1].ended
  {
    var shorter := log[..|log| - 1];
    if k < |WrongChecks(shorter)| {
      WrongChecksEndInOrder(shorter, k);
    }
  }

  /** The k-th wrong check begins after the one before it ended, and a minute later when that one was a third. */
  lemma {:induction false} Spaced(log: seq<Check>, k: nat)
    requires Lawful(log) && 0 < k < |WrongChecks(log)|
    ensures WrongChecks(log)[k].begun >= WrongChecks(log)[k - 1].ended + Pause(k)
  {
    var shorter := log[..|log| - 1];
    if k < |WrongChecks(shorter)| {
      Spaced(shorter, k);
    } else {
      WrongChecksEndInOrder(shorter, k - 1);
    }
  }

  /** The least pause before a further wrong check, after `n` without a verified one. */
  function Pause(n: nat): int {
    if n > 0 && n % MAX_PASSWORD_ATTEMPTS == 0 then PASSWORD_LOCK_MS else 0
  }

  lemma {:induction false} SpreadOverThirds(log: seq<Check>, i: nat, j: nat)
    requires Lawful(log) && i < j < |WrongChecks(log)|
    ensures WrongChecks(log)[j].begun - WrongChecks(log)[i].ended >= PASSWORD_LOCK_MS * (j / 3 - i / 3)
  {
    Spaced(log, j);
    ThirdsCount(j - 1, j);
    if i < j - 1 {
      SpreadOverThirds(log, i, j - 1);
      WrongChecksEndInOrder(log, j - 1);
    }
  }

  lemma ThirdsCount(i: nat, j: nat)
    requires i < j
    ensures PASSWORD_LOCK_MS * (j / 3 - (j - 1) / 3) == Pause(j)
    ensures j / 3 - i / 3 >= (j - i) / 3
  {
  }

  /** The wrong checks of a later log are those of an earlier one and the ones since, when none was verified since. */
  lemma {:induction false} WrongSince(log: seq<Check>, n: nat)
    requires n <= |log| && forall t | n <= t < |log| :: !log[t].outcome.Verified?
    ensures WrongChecks(log) == WrongChecks(log[..n]) + WrongChecks(log[n..])
  {
    if n == |log| {
      assert log[..n] == log;
    } else {
      var shorter := log[..|log| - 1];
      WrongSince(shorter, n);
      assert shorter[..n] == log[..n];
      assert log[n..][..|log[n..]| - 1] == shorter[n..];
    }
  }

  lemma {:induction false} FirstWrong(log: seq<Check>)
    requires log != [] && log[0].outcome.Wrong? && forall t | 0 <= t < |log| :: !log[t].outcome.Verified?
    ensures WrongChecks(log) != [] && WrongChecks(log)[0] == log[0]
  {
    if |log| > 1 {
      FirstWrong(log[..|log| - 1]);
    } else {
      assert log[..0] == [];
    }
  }

  lemma WrongChecksBetween(log: seq<Check>, i: nat, j: nat)
    requires i < j < |log| && log[i].outcome.Wrong? && log[j].outcome.Wrong?
    requires forall t | i < t < j :: !log[t].outcome.Verified?
    ensures var wrong := WrongChecks(log[i..j + 1]);
      |wrong| >= 2 && wrong[0] == log[i] && wrong[|wrong| - 1] == log[j]
  {
    var between := log[i..j + 1];
    FirstWrong(between);
    FirstWrong(between[..j - i]);
    assert between[j - i] == log[j];
  }

  lemma WrongChecksUpTo(log: seq<Check>, i: nat, j: nat)
    requires i < j < |log| && log[i].outcome.Wrong? && log[j].outcome.Wrong?
    requires forall t | i < t < j :: !log[t].outcome.Verified?
    ensures WrongChecks(log[..j + 1]) == WrongChecks(log[..i]) + WrongChecks(log[i..j + 1])
  {
    var upTo := log[..j + 1];
    forall t | i <= t < |upTo| ensures !upTo[t].outcome.Verified? {
      assert upTo[t] == log[t];
    }
    WrongSince(upTo, i);
    assert upTo[..i] == log[..i] && upTo[i..] == log[i..j + 1];
  }

  /** Any n wrong checks with no verified one between them take a minute for each third among them but the last. */
  lemma WrongChecksAreSpread(log: seq<Check>, i: nat, j: nat)
    requires Lawful(log) && i < j < |log| && log[i].outcome.Wrong? && log[j].outcome.Wrong?
    requires forall t | i < t < j :: !log[t].outcome.Verified?
    ensures log[j].begun - log[i].ended >=
            PASSWORD_LOCK_MS * ((|WrongChecks(log[i..j + 1])| - 1) / MAX_PASSWORD_ATTEMPTS)
  {
    var before, n := |WrongChecks(log[..i])|, |WrongChecks(log[i..j + 1])|;
    PrefixLawful(log, j + 1);
    WrongChecksUpTo(log, i, j);
    WrongChecksBetween(log, i, j);
    SpreadOverThirds(log[..j + 1], before, before + n - 1);
    ThirdsCount(before, before + n - 1);
  }

  // ---- The ceremony ----

  /** The two counters hold what the whole log says. */
  ghost predicate Represents(failures: nat, lockedUntil: int, log: seq<Check>, clock: int) {
    && Lawful(log) && 0 <= clock && (log != [] ==> log[|log| - 1].ended <= clock)
    && (lockedUntil == 0 ==> failures == |WrongChecks(log)| % MAX_PASSWORD_ATTEMPTS && !LockedAt(log, clock))
    && (lockedUntil != 0 ==>
          Thirds(log) && lockedUntil == WrongChecks(log)[|WrongChecks(log)| - 1].ended + PASSWORD_LOCK_MS)
  }

  lemma LockIsTheLogs(failures: nat, lockedUntil: int, log: seq<Check>, clock: int, now: int)
    requires Represents(failures, lockedUntil, log, clock) && clock <= now
    ensures lockedUntil > now <==> LockedAt(log, now)
    ensures lockedUntil > now ==> Represents(failures, lockedUntil, log, now)
    ensures lockedUntil <= now ==> Represents(if lockedUntil != 0 then 0 else failures, 0, log, now)
  {
  }

  lemma CheckedIsRepresented(failures: nat, log: seq<Check>, now: int, later: int, outcome: Outcome)
    requires Represents(failures, 0, log, now) && now <= later
    ensures var longer := log + [Check(now, later, outcome)];
      match outcome
      case Verified => Represents(0, 0, longer, later)
      case Unable => Represents(failures, 0, longer, later)
      case Wrong =>
        && |WrongChecks(longer)| % MAX_PASSWORD_ATTEMPTS == (failures + 1) % MAX_PASSWORD_ATTEMPTS
        && if failures + 1 < MAX_PASSWORD_ATTEMPTS then Represents(failures + 1, 0, longer, later)
           else Represents(failures + 1, later + PASSWORD_LOCK_MS, longer, later)
  {
    var check := Check(now, later, outcome);
    assert (log + [check])[..|log|] == log;
    NextThird(|WrongChecks(log)|);
  }

  lemma NextThird(n: nat)
    ensures (n + 1) % MAX_PASSWORD_ATTEMPTS == (n % MAX_PASSWORD_ATTEMPTS + 1) % MAX_PASSWORD_ATTEMPTS
  {
  }

  class ActionPasswords {
    var failures: nat
    var lockedUntil: int
    // Every check that ran, and the latest clock reading.
    ghost var log: seq<Check>
    ghost var clock: int

    ghost predicate Valid()
      reads this
    {
      Represents(failures, lockedUntil, log, clock)
    }

    constructor (now: int)
      requires 0 <= now
      ensures Valid() && log == [] && clock == now
    {
      failures, lockedUntil, log, clock := 0, 0, [], now;
    }

    /** Answers as the whole log of checks would: a held lock refuses without a check, any other attempt is checked. */
    method Authenticate(kind: string, secret: string, matches: bool, readable: bool, now: int, later: int)
      returns (answer: Answer)
      requires Valid() && clock <= now <= later
      modifies this
      ensures Valid()
      ensures LockedAt(old(log), now) ==>
                && log == old(log) && clock == now && answer.Locked?
                && var left := WrongChecks(log)[|WrongChecks(log)| - 1].ended + 60_000 - now;
                  1000 * (answer.seconds - 1) < left <= 1000 * answer.seconds
      ensures !LockedAt(old(log), now) ==>
                && clock == later && |log| == |old(log)| + 1 && log[..|old(log)|] == old(log)
                && log[|old(log)|].begun == now && log[|old(log)|].ended == later
      ensures answer.Accepted? <==>
              !LockedAt(old(log), now) && kind == "auth:password" && 1 <= |secret| <= 4096 && readable && matches
      ensures answer.Unavailable? <==>
              !LockedAt(old(log), now) && (kind != "auth:password" || |secret| < 1 || |secret| > 4096 || !readable)
      ensures WrongChecks(log) ==
              if answer.Accepted? then []
              else if answer.Unavailable? || LockedAt(old(log), now) then WrongChecks(old(log))
              else WrongChecks(old(log)) + [Check(now, later, Wrong)]
      ensures !answer.Accepted? && !answer.Unavailable? && !LockedAt(old(log), now) ==>
                var n := |WrongChecks(log)|;
                answer == if n % 3 == 0 then Locked(60) else Denied(3 - n % 3)
    {
      LockIsTheLogs(failures, lockedUntil, log, clock, now);
      clock := now;
      if lockedUntil > now {
        return Locked((lockedUntil - now + 999) / 1000);
      }
      if lockedUntil != 0 {
        failures, lockedUntil := 0, 0;
      }
      var outcome := Verify(kind, secret, matches, readable);
      CheckedIsRepresented(failures, log, now, later, outcome);
      assert (log + [Check(now, later, outcome)])[..|log|] == log;
      log, clock := log + [Check(now, later, outcome)], later;
      match outcome
      case Verified =>
        failures, lockedUntil := 0, 0;
        answer := Accepted;
      case Wrong =>
        failures := failures + 1;
        if failures < MAX_PASSWORD_ATTEMPTS {
          return Denied(MAX_PASSWORD_ATTEMPTS - failures);
        }
        lockedUntil := later + PASSWORD_LOCK_MS;
        answer := Locked(60);
      case Unable =>
        answer := Unavailable;
    }
  }
}
