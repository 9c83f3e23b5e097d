/**
What each factor operation does to the authentication record inside its transaction. Random secrets are parameters, and
so is what a code matches: the HMAC, the recovery derivation and the assertion's signature are abstract.
*/
module Factors {
  import opened Classify
  import opened Store
  import opened Totp
  import opened Wrappers

  datatype Ceremony = Setup | Recovery | Login | Operation

  predicate Enrolls(ceremony: Ceremony) {
    ceremony.Setup? || ceremony.Recovery?
  }

  function Requires(ceremony: Ceremony): AuthState {
    match ceremony
    case Setup => EnrollmentRequired
    case Recovery => RecoveryEnrollment
    case Login => Configured
    case Operation => Configured
  }

  /** What was typed as a recovery code, as its digest with a salt; what is no code at all has none. */
  datatype Candidate = Candidate(salt: string, digest: Option<string>)

  /** A verified assertion. */
  datatype Assertion = Assertion(credentialId: string, signCount: nat, backupEligible: bool, backupState: bool)

  datatype NewIdentity = NewIdentity(
    verifier: string, sessionSecret: nat, supervisorId: nat, signingKey: nat, userId: nat, totpSecret: nat)

  // ---- The counters ----

  function Refused(data: Record): Record
    requires HasFactors(data)
  {
    var counters := data.counters.value;
    data.(counters := Present(counters.(sinceSignIn := Min(counters.sinceSignIn + 1, MAX_SECOND_FACTOR_FAILURES))))
  }

  function SignedIn(data: Record): Record
    requires HasFactors(data)
  {
    var counters := data.counters.value;
    data.(counters :=
      Present(Counters(0, Min(counters.unacknowledged + counters.sinceSignIn, MAX_SECOND_FACTOR_FAILURES))))
  }

  // ---- The operations ----

  function BeginSetup(data: Record, identity: NewIdentity, now: int): Result<(Record, ()), StateError> {
    if data.password.Present? then Failure(AlreadyConfigured)
    else if !data.password.Absent? then Failure(PasswordRecord)
    else if !(data.sessionSecret.Absent? && data.supervisorId.Absent? && data.signingKey.Absent?
              && data.created.Absent?)
    then Failure(Authority)
    else if !Validated(NewFactor(identity.totpSecret, now)) then Failure(TotpError)
    else Success((data.(
      password := Present(identity.verifier), sessionSecret := Present(identity.sessionSecret),
      supervisorId := Present(identity.supervisorId), signingKey := Present(identity.signingKey),
      authVersion := Present(AUTH_VERSION), generation := Present(1), userId := Present(identity.userId),
      passkeys := Present([]), totp := Present(NewFactor(identity.totpSecret, now)),
      counters := Present(Counters(0, 0)), codes := Null, created := Present(now)), ()))
  }

  function Resume(data: Record, now: int): Result<(Record, ()), StateError> {
    var state := StateOf(data);
    if state.Failure? then Failure(state.error)
    else if !state.value.EnrollmentRequired? then Failure(TotpError)
    else
      var resumed := Resumed(data.totp.value, now);
      if resumed.None? then Failure(TotpError) else Success((data.(totp := Present(resumed.value)), ()))
  }

  /** One TOTP attempt. The code is looked at only under the ticket's own generation, and may complete an enrollment. */
  function VerifyTotp(data: Record, ceremony: Ceremony, expected: Option<int>, codes: Option<RecoverySet>,
                      matched: Option<int>, newSecret: nat, now: int)
    : Result<(Record, Verification), StateError>
  {
    var state := StateOf(data);
    if Enrolls(ceremony) && !(codes.Some? && ValidCodes(codes.value)) then Failure(TotpError)
    else if state.Failure? then Failure(state.error)
    else if state.value != Requires(ceremony) then Failure(TotpError)
    else if expected.Some? && data.generation.value != expected.value then Success((data, Changed))
    else
      var (factor, result) := Verify(data.totp.value, matched, now);
      var attempted := data.(totp := Present(factor));
      var counted :=
        if result.Invalid? || result.Locked? then attempted.(counters := Refused(data).counters)
        else if result.Accepted? && !ceremony.Operation? then attempted.(counters := SignedIn(data).counters)
        else attempted;
      Success((if result.Accepted? && Enrolls(ceremony)
               then counted.(codes := Present(codes.value), generation := Present(data.generation.value + 1),
                             sessionSecret := Present(newSecret))
               else counted, result))
  }

  /** The unused code of a digest, counted from one; zero when there is none. */
  function Unused(codes: seq<Code>, digest: Option<string>): (place: nat)
    ensures place <= |codes|
    ensures place > 0 ==> codes[place - 1].usedAt.None? && digest == Some(codes[place - 1].digest)
    ensures place == 0 ==> forall i | 0 <= i < |codes| :: codes[i].usedAt.None? ==> digest != Some(codes[i].digest)
  {
    if codes == [] then 0
    else
      var last := codes[|codes| - 1];
      if last.usedAt.None? && digest == Some(last.digest) then |codes| else Unused(codes[..|codes| - 1], digest)
  }

  /** Tries a recovery code, which counts against TOTP's lock; an accepted one is used up and TOTP starts anew. */
  function SpendRecoveryCode(data: Record, candidate: Candidate, expected: int, totpSecret: nat, newSecret: nat,
                             now: int)
    : Result<(Record, Verification), StateError>
  {
    var state := StateOf(data);
    if state.Failure? then Failure(state.error)
    else if !state.value.Configured? && !state.value.RecoveryEnrollment? then Failure(TotpError)
    else
      var recovery, factor := data.codes.value, data.totp.value;
      if data.generation.value != expected || recovery.salt != candidate.salt then Success((data, Changed))
      else if IsLocked(factor, now) then Success((Refused(data), Locked))
      else
        var place := Unused(recovery.codes, candidate.digest);
        if place == 0 then
          var (failed, result) := RecordFailure(factor, now);
          Success((Refused(data).(totp := Present(failed)), result))
        else if !Validated(NewFactor(totpSecret, now)) then Failure(TotpError)
        else
          var spent := recovery.codes[place - 1 := recovery.codes[place - 1].(usedAt := Some(now))];
          Success((data.(codes := Present(recovery.(codes := spent)), totp := Present(NewFactor(totpSecret, now)),
                         generation := Present(expected + 1), sessionSecret := Present(newSecret)), Accepted))
  }

  function ReplaceRecoveryCodes(data: Record, codes: RecoverySet): Result<(Record, ()), StateError> {
    var state := StateOf(data);
    if !ValidCodes(codes) then Failure(TotpError)
    else if state.Failure? then Failure(state.error)
    else if !state.value.Configured? then Failure(TotpError)
    else Success((data.(codes := Present(codes), generation := Present(data.generation.value + 1)), ()))
  }

  function Acknowledge(data: Record, count: nat): Result<(Record, ()), StateError> {
    var state := StateOf(data);
    if state.Failure? then Failure(state.error)
    else if !state.value.Configured? then Failure(PasswordRecord)
    else
      var left := data.counters.value.unacknowledged - count;
      Success((data.(counters := Present(data.counters.value.(unacknowledged := if left > 0 then left else 0))), ()))
  }

  /** A logout: a valid session trades the secret of all of them for a new one. */
  function Logout(data: Record, presentedIsValid: bool, newSecret: nat): Result<(Record, bool), StateError> {
    var state := StateOf(data);
    if state.Failure? then Failure(state.error)
    else if !state.value.Configured? || !presentedIsValid then Success((data, false))
    else Success((data.(sessionSecret := Present(newSecret)), true))
  }

  function InUseOf(passkeys: seq<Passkey>): seq<Passkey> {
    if passkeys == [] then []
    else
      var last := passkeys[|passkeys| - 1];
      InUseOf(passkeys[..|passkeys| - 1]) + (if last.status.InUse? then [last] else [])
  }

  /** Adds one verified credential to those in use, and forgets the suspended ones. */
  function AddPasskey(data: Record, passkey: Passkey, expected: int, newSecret: nat): Result<(Record, ()), StateError> {
    var state := StateOf(data);
    if !ValidPasskey(passkey) then Failure(PasskeyInvalid)
    else if state.Failure? then Failure(state.error)
    else if !state.value.Configured? || data.generation.value != expected then Failure(PasskeyConflict)
    else
      var inUse := InUseOf(data.passkeys.value);
      if |inUse| >= MAX_PASSKEYS || passkey.credentialId in CredentialIds(inUse) then Failure(PasskeyConflict)
      else Success((data.(passkeys := Present(inUse + [passkey]), generation := Present(expected + 1),
                          sessionSecret := Present(newSecret)), ()))
  }

  /** Why an assertion suspends its passkey: its counter did not advance, or its backup identity is another. */
  predicate Suspends(stored: Passkey, assertion: Assertion) {
    || (stored.signCount > 0 && assertion.signCount <= stored.signCount)
    || assertion.backupEligible != stored.backupEligible
    || (assertion.backupState && !assertion.backupEligible)
  }

  function AppliedAssertion(stored: Passkey, assertion: Assertion, now: int): Passkey {
    var used := stored.(lastUsedAt := now, updatedAt := now);
    if Suspends(stored, assertion) then used.(status := Suspended)
    else used.(signCount := assertion.signCount, backupState := assertion.backupState)
  }

  /** The passkey of a credential, counted from one; zero when there is none. */
  function Place(passkeys: seq<Passkey>, credentialId: string): (place: nat)
    ensures place <= |passkeys|
    ensures place > 0 ==> passkeys[place - 1].credentialId == credentialId
    ensures place == 0 ==> forall i | 0 <= i < |passkeys| :: passkeys[i].credentialId != credentialId
  {
    if passkeys == [] then 0
    else if passkeys[|passkeys| - 1].credentialId == credentialId then |passkeys|
    else Place(passkeys[..|passkeys| - 1], credentialId)
  }

  /** Applies an assertion if its passkey is still as the ceremony found it; the answer says whether it suspended it. */
  function CommitAssertion(data: Record, original: Passkey, assertion: Assertion, expected: int, signIn: bool,
                           newSecret: nat, now: int)
    : Result<(Record, bool), StateError>
  {
    var state := StateOf(data);
    if !ValidPasskey(original) then Failure(PasskeyInvalid)
    else if state.Failure? then Failure(state.error)
    else if !state.value.Configured? || data.generation.value != expected then Failure(PasskeyConflict)
    else
      var passkeys := data.passkeys.value;
      var place := Place(passkeys, assertion.credentialId);
      if place == 0 || passkeys[place - 1] != original then Failure(PasskeyConflict)
      else
        var applied := data.(passkeys := Present(passkeys[place - 1 := AppliedAssertion(original, assertion, now)]));
        if Suspends(original, assertion)
        then Success((applied.(generation := Present(expected + 1), sessionSecret := Present(newSecret)), true))
        else Success((if signIn then applied.(counters := SignedIn(data).counters) else applied, false))
  }

  // ---- One operation of any kind ----

  datatype Op =
    | Begins(identity: NewIdentity, now: int)
    | Resumes(now: int)
    | Verifies(ceremony: Ceremony, expected: Option<int>, codes: Option<RecoverySet>, matched: Option<int>,
               newSecret: nat, now: int)
    | Spends(candidate: Candidate, expectedGeneration: int, totpSecret: nat, newSecret: nat, now: int)
    | Replaces(newCodes: RecoverySet)
    | Acknowledges(count: nat)
    | LogsOut(presentedIsValid: bool, newSecret: nat)
    | Adds(passkey: Passkey, expectedGeneration: int, newSecret: nat)
    | Asserts(original: Passkey, assertion: Assertion, expectedGeneration: int, signIn: bool, newSecret: nat, now: int)

  datatype Outcome = Done | Attempted(result: Verification) | Decided(answer: bool)

  function Answered<R>(updated: Result<(Record, R), StateError>, outcome: R -> Outcome)
    : Result<(Record, Outcome), StateError>
  {
    match updated
    case Failure(error) => Failure(error)
    case Success((next, result)) => Success((next, outcome(result)))
  }

  function Apply(data: Record, op: Op): Result<(Record, Outcome), StateError> {
    match op
    case Begins(identity, now) => Answered(BeginSetup(data, identity, now), _ => Done)
    case Resumes(now) => Answered(Resume(data, now), _ => Done)
    case Verifies(ceremony, expected, codes, matched, newSecret, now) =>
      Answered(VerifyTotp(data, ceremony, expected, codes, matched, newSecret, now), result => Attempted(result))
    case Spends(candidate, expected, totpSecret, newSecret, now) =>
      Answered(SpendRecoveryCode(data, candidate, expected, totpSecret, newSecret, now), result => Attempted(result))
    case Replaces(codes) => Answered(ReplaceRecoveryCodes(data, codes), _ => Done)
    case Acknowledges(count) => Answered(Acknowledge(data, count), _ => Done)
    case LogsOut(presentedIsValid, newSecret) =>
      Answered(Logout(data, presentedIsValid, newSecret), rotated => Decided(rotated))
    case Adds(passkey, expected, newSecret) => Answered(AddPasskey(data, passkey, expected, newSecret), _ => Done)
    case Asserts(original, assertion, expected, signIn, newSecret, now) =>
      Answered(CommitAssertion(data, original, assertion, expected, signIn, newSecret, now),
               suspended => Decided(suspended))
  }

  /** Whether the transaction persists what the update computed. */
  predicate Writes(op: Op, outcome: Outcome) {
    && (op.Spends? ==> outcome != Attempted(Changed))
    && (op.LogsOut? ==> outcome != Decided(false))
  }
}
