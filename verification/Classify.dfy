/**
The authentication record and the exact state it is in. Each member is typed: absent, null, of another shape than Admin
writes, or present with the value its shape carries.
*/
module Classify {
  import opened Lists
  import opened Store
  import opened Totp
  import opened Wrappers

  const AUTH_VERSION: int := 1
  const MAX_SECOND_FACTOR_FAILURES: int := 1_000_000
  const MAX_CONSUMED_HOST_RESETS: nat := 128
  const MAX_PASSKEYS: nat := 8
  const CODE_COUNT: nat := 10

  datatype Member<+T> = Absent | Null | Malformed | Present(value: T)

  datatype PasskeyStatus = InUse | Suspended

  /** A stored passkey; its identifiers are taken to be well-formed and its relying party that of its origin. */
  datatype Passkey = Passkey(
    credentialId: string, publicKey: string, signCount: int, backupEligible: bool, backupState: bool, origin: string,
    status: PasskeyStatus, createdAt: int, updatedAt: int, lastUsedAt: int)

  datatype Counters = Counters(sinceSignIn: int, unacknowledged: int)

  datatype Code = Code(digest: string, usedAt: Option<int>)

  datatype RecoverySet = RecoverySet(salt: string, codes: seq<Code>)

  datatype HostReset = HostReset(digest: string, expiresAt: int)

  datatype Record = Record(
    password: Member<string>, authVersion: Member<int>, generation: Member<int>, userId: Member<nat>,
    sessionSecret: Member<nat>, supervisorId: Member<nat>, signingKey: Member<nat>, passkeys: Member<seq<Passkey>>,
    totp: Member<Factor>, counters: Member<Counters>, codes: Member<RecoverySet>, created: Member<int>,
    hostResets: Member<seq<HostReset>>)

  datatype AuthState = Uninitialized | EnrollmentRequired | Configured | RecoveryEnrollment

  predicate ValidPasskey(passkey: Passkey) {
    && passkey.signCount >= 0 && (passkey.backupState ==> passkey.backupEligible)
    && 0 <= passkey.createdAt <= passkey.updatedAt && passkey.createdAt <= passkey.lastUsedAt
  }

  function Values(list: seq<string>): set<string> {
    set value | value in list
  }

  function CredentialIds(passkeys: seq<Passkey>): (ids: seq<string>)
    ensures |ids| == |passkeys| && forall i | 0 <= i < |ids| :: ids[i] == passkeys[i].credentialId
  {
    seq(|passkeys|, i requires 0 <= i < |passkeys| => passkeys[i].credentialId)
  }

  function Digests(codes: seq<Code>): (digests: seq<string>)
    ensures |digests| == |codes| && forall i | 0 <= i < |digests| :: digests[i] == codes[i].digest
  {
    seq(|codes|, i requires 0 <= i < |codes| => codes[i].digest)
  }

  /** Sorted and with repetitions dropped, the list is as long as before. */
  predicate NoneTwice(list: seq<string>) {
    |Values(list)| == |list|
  }

  /** The passkeys a record may hold together. */
  predicate ValidPasskeys(passkeys: seq<Passkey>) {
    && |passkeys| <= MAX_PASSKEYS && (forall passkey <- passkeys :: ValidPasskey(passkey))
    && NoneTwice(CredentialIds(passkeys))
  }

  predicate ValidCounters(counters: Counters) {
    && 0 <= counters.sinceSignIn <= MAX_SECOND_FACTOR_FAILURES
    && 0 <= counters.unacknowledged <= MAX_SECOND_FACTOR_FAILURES
  }

  /** Ten codes, no digest twice, each unused or used at a positive time. */
  predicate ValidCodes(recovery: RecoverySet) {
    && |recovery.codes| == CODE_COUNT && NoneTwice(Digests(recovery.codes))
    && forall code <- recovery.codes :: code.usedAt.Some? ==> code.usedAt.value >= 1
  }

  predicate ValidHostResets(resets: Member<seq<HostReset>>) {
    && resets.Present? && |resets.value| <= MAX_CONSUMED_HOST_RESETS
    && (forall reset <- resets.value :: reset.expiresAt >= 1)
    && forall i, j | 0 <= i < j < |resets.value| :: resets.value[i].digest != resets.value[j].digest
  }

  /** Whether the record holds nothing but, perhaps, consumed host resets. */
  predicate HoldsNothingElse(data: Record) {
    && data.authVersion.Absent? && data.generation.Absent? && data.userId.Absent? && data.sessionSecret.Absent?
    && data.supervisorId.Absent? && data.signingKey.Absent? && data.passkeys.Absent? && data.totp.Absent?
    && data.counters.Absent? && data.codes.Absent? && data.created.Absent?
  }

  predicate HoldsFactors(data: Record) {
    && data.authVersion == Present(AUTH_VERSION) && data.generation.Present? && data.generation.value >= 1
    && data.userId.Present? && data.sessionSecret.Present?
    && data.passkeys.Present? && ValidPasskeys(data.passkeys.value)
    && data.counters.Present? && ValidCounters(data.counters.value)
    && data.totp.Present? && Validated(data.totp.value)
  }

  /** The recovery codes decide between the two pending states, and an active factor has them. */
  function FactorState(status: Status, codes: Member<RecoverySet>): Result<AuthState, StateError> {
    match codes
    case Absent => Failure(PasswordRecord)
    case Null => if status.Pending? then Success(EnrollmentRequired) else Failure(PasswordRecord)
    case Malformed => Failure(PasswordRecord)
    case Present(recovery) =>
      if !ValidCodes(recovery) then Failure(PasswordRecord)
      else if status.Pending? then Success(RecoveryEnrollment) else Success(Configured)
  }

  /** Where a record stands on the way to a configured Supervisor, unless its members contradict each other. */
  function StateOf(data: Record): Result<AuthState, StateError> {
    match data.password
    case Absent =>
      if !HoldsNothingElse(data) then Failure(PasswordRecord)
      else if !data.hostResets.Absent? && !ValidHostResets(data.hostResets) then Failure(Corrupt)
      else Success(Uninitialized)
    case Present(_) =>
      if !HoldsFactors(data) then Failure(PasswordRecord) else FactorState(data.totp.value.status, data.codes)
    case _ => Failure(PasswordRecord)
  }

  /** Whether the record is one of a password and valid factors. */
  predicate HasFactors(data: Record) {
    StateOf(data).Success? && !StateOf(data).value.Uninitialized?
  }

  // ---- Lists without repetition ----

  lemma {:induction false} ValuesCount(list: seq<string>)
    ensures |Values(list)| <= |list|
    ensures NoneTwice(list) <==> Distinct(list)
  {
    if list != [] {
      var rest, last := list[..|list| - 1], list[|list| - 1];
      ValuesCount(rest);
      assert list == rest + [last];
      assert Values(list) == Values(rest) + {last};
      if last in Values(rest) {
        var i :| 0 <= i < |rest| && rest[i] == last;
        assert list[i] == list[|list| - 1];
      } else {
        assert forall i | 0 <= i < |rest| :: list[i] == rest[i] && rest[i] in Values(rest);
      }
    }
  }

  /** The remembered host resets that are valid, read one by one. */
  method ConsumedHostResets(records: Member<seq<HostReset>>) returns (seen: Result<seq<HostReset>, StateError>)
    ensures seen == if ValidHostResets(records) then Success(records.value) else Failure(Corrupt)
    ensures seen.Success? <==>
            && records.Present? && |records.value| <= 128 && (forall reset <- records.value :: reset.expiresAt >= 1)
            && forall i, j | 0 <= i < j < |records.value| :: records.value[i].digest != records.value[j].digest
  {
    if !records.Present? || |records.value| > MAX_CONSUMED_HOST_RESETS {
      return Failure(Corrupt);
    }
    var list := records.value;
    var known: seq<HostReset> := [];
    for i := 0 to |list|
      invariant known == list[..i]
      invariant forall k | 0 <= k < i :: list[k].expiresAt >= 1
      invariant forall j, k | 0 <= j < k < i :: list[j].digest != list[k].digest
    {
      if list[i].expiresAt < 1 || exists reset <- known :: reset.digest == list[i].digest {
        assert forall reset <- known :: reset in list;
        return Failure(Corrupt);
      }
      assert forall j | 0 <= j < i :: known[j] in known;
      known := known + [list[i]];
    }
    assert known == list && forall k | 0 <= k < |list| :: list[k] in list;
    assert forall reset <- list :: reset.expiresAt >= 1;
    return Success(known);
  }
}
