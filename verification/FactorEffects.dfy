/**
When each factor operation succeeds and what it leaves, said of the record itself: which ceremony its state admits,
which attempts it accepts, which members change and that no other does.
*/
module FactorEffects {
  import opened Classify
  import opened FactorLaws
  import opened Factors
  import opened Lists
  import opened Store
  import opened Totp
  import opened Wrappers

  predicate IsIn(data: Record, state: AuthState) {
    StateOf(data) == Success(state)
  }

  /** The error of an operation refused for its argument, for the record's state, or for another reason. */
  function ErrorOf(data: Record, argument: Option<StateError>, otherwise: StateError): StateError {
    if argument.Some? then argument.value
    else if StateOf(data).Failure? then StateOf(data).error else otherwise
  }

  // ---- What each state means ----

  /** A record with a password, its identity and counters, at most eight valid passkeys and a valid factor. */
  ghost predicate HasIdentity(data: Record) {
    && data.password.Present? && data.authVersion == Present(1) && data.generation.Present?
    && data.generation.value >= 1 && data.userId.Present? && data.sessionSecret.Present?
    && data.counters.Present? && 0 <= data.counters.value.sinceSignIn <= 1_000_000
    && 0 <= data.counters.value.unacknowledged <= 1_000_000
    && data.passkeys.Present? && |data.passkeys.value| <= 8
    && (forall passkey <- data.passkeys.value :: IsSound(passkey))
    && (forall i, j | 0 <= i < j < |data.passkeys.value| ::
          data.passkeys.value[i].credentialId != data.passkeys.value[j].credentialId)
    && data.totp.Present? && IsWellFormed(data.totp.value)
  }

  /** A counter not below zero, a backup state only of what may be backed up, and times not before its creation. */
  predicate IsSound(passkey: Passkey) {
    && passkey.signCount >= 0 && passkey.createdAt >= 0 && (passkey.backupState ==> passkey.backupEligible)
    && passkey.updatedAt >= passkey.createdAt && passkey.lastUsedAt >= passkey.createdAt
  }

  /**
  A factor created at the clock's second period or later and never resumed before; while it pends it lapses 900 seconds
  after it was resumed and accepted nothing, and once active it was activated no earlier than created.
  */
  predicate IsWellFormed(factor: Factor) {
    && factor.createdAt >= 30 && factor.resumedAt >= factor.createdAt && 0 <= factor.failures <= 1_000_000
    && (factor.status.Pending? ==>
          factor.expiresAt == Some(factor.resumedAt + 900) && factor.lastAcceptedStep.None? && factor.activatedAt.None?)
    && (factor.status.Active? ==>
          factor.expiresAt.None? && factor.activatedAt.Some? && factor.activatedAt.value >= factor.createdAt)
  }

  lemma ValidIsWellFormed(passkey: Passkey, factor: Factor)
    ensures ValidPasskey(passkey) <==> IsSound(passkey)
    ensures Validated(factor) <==> IsWellFormed(factor)
  {
  }

  /** Ten codes of different digests, none used before the clock's first second. */
  ghost predicate IsRecoverySet(codes: RecoverySet) {
    && |codes.codes| == 10
    && (forall i, j | 0 <= i < j < 10 :: codes.codes[i].digest != codes.codes[j].digest)
    && (forall code <- codes.codes :: code.usedAt.Some? ==> code.usedAt.value >= 1)
  }

  lemma RecoverySetsAreValid(codes: RecoverySet)
    ensures ValidCodes(codes) <==> IsRecoverySet(codes)
  {
    ValuesCount(Digests(codes.codes));
  }

  lemma PasskeysAreDistinct(passkeys: seq<Passkey>)
    ensures NoneTwice(CredentialIds(passkeys)) <==>
            forall i, j | 0 <= i < j < |passkeys| :: passkeys[i].credentialId != passkeys[j].credentialId
  {
    ValuesCount(CredentialIds(passkeys));
  }

  /**
  The record is in one of three states with factors exactly when it has an identity, told apart by the factor's status
  and the recovery codes: null before setup is confirmed, a valid set afterwards.
  */
  lemma StatesAreExact(data: Record)
    ensures IsIn(data, EnrollmentRequired) <==>
            HasIdentity(data) && data.totp.value.status.Pending? && data.codes.Null?
    ensures IsIn(data, RecoveryEnrollment) <==>
            && HasIdentity(data) && data.totp.value.status.Pending?
            && data.codes.Present? && IsRecoverySet(data.codes.value)
    ensures IsIn(data, Configured) <==>
            && HasIdentity(data) && data.totp.value.status.Active?
            && data.codes.Present? && IsRecoverySet(data.codes.value)
    ensures IsIn(data, Uninitialized) <==>
            && data.password.Absent? && HoldsNothingElse(data)
            && (data.hostResets.Absent? || ValidHostResets(data.hostResets))
    ensures StateOf(data).Failure? ==>
              StateOf(data).error == if data.password.Absent? && HoldsNothingElse(data) then Corrupt else PasswordRecord
  {
    if data.passkeys.Present? {
      PasskeysAreDistinct(data.passkeys.value);
    }
    if data.codes.Present? {
      RecoverySetsAreValid(data.codes.value);
    }
  }

  // ---- Setup ----

  /** Setup begins only on a record without an identity, and puts each drawn value where it belongs. */
  lemma SetupBegins(data: Record, identity: NewIdentity, now: int)
    ensures BeginSetup(data, identity, now).Success? <==>
            && data.password.Absent? && data.sessionSecret.Absent? && data.supervisorId.Absent?
            && data.signingKey.Absent? && data.created.Absent? && now >= 30
    ensures BeginSetup(data, identity, now).Success? ==>
              var next := BeginSetup(data, identity, now).value.0;
              && next.password == Present(identity.verifier) && next.sessionSecret == Present(identity.sessionSecret)
              && next.supervisorId == Present(identity.supervisorId) && next.signingKey == Present(identity.signingKey)
              && next.userId == Present(identity.userId) && next.generation == Present(1)
              && next.counters == Present(Counters(0, 0)) && next.passkeys == Present([]) && next.codes.Null?
              && next.created == Present(now) && next.hostResets == data.hostResets
              && next.totp.value.secret == identity.totpSecret && next.totp.value.status.Pending?
              && next.totp.value.expiresAt == Some(now + 900)
    ensures data.password.Present? ==> BeginSetup(data, identity, now) == Failure(AlreadyConfigured)
  {
  }

  /** A setup is resumed with the same secret and its refusals, in a window that starts anew. */
  lemma SetupResumes(data: Record, now: int)
    ensures Resume(data, now).Failure? ==> Resume(data, now).error == ErrorOf(data, None, TotpError)
    ensures Resume(data, now).Success? <==> IsIn(data, EnrollmentRequired) && now >= data.totp.value.createdAt
    ensures Resume(data, now).Success? ==>
              var next, totp := Resume(data, now).value.0, data.totp.value;
              && next == data.(totp := next.totp) && next.totp.Present?
              && next.totp.value == totp.(resumedAt := now, expiresAt := Some(now + 900))
  {
  }

  // ---- TOTP ----

  /** The state a ceremony's code is looked at in. */
  predicate Admits(data: Record, ceremony: Ceremony) {
    match ceremony
    case Setup => IsIn(data, EnrollmentRequired)
    case Recovery => IsIn(data, RecoveryEnrollment)
    case Login => IsIn(data, Configured)
    case Operation => IsIn(data, Configured)
  }

  predicate TicketIsCurrent(data: Record, expected: Option<int>) {
    expected.Some? ==> data.generation == Present(expected.value)
  }

  predicate LockHolds(factor: Factor, now: int) {
    factor.lockedUntil.Some? && now < factor.lockedUntil.value
  }

  predicate WindowIsPast(factor: Factor, now: int) {
    factor.status.Pending? && factor.expiresAt.Some? && now > factor.expiresAt.value
  }

  /** The code is of a later period than every one accepted before. */
  predicate IsLater(factor: Factor, matched: Option<int>) {
    matched.Some? && (factor.lastAcceptedStep.None? || matched.value > factor.lastAcceptedStep.value)
  }

  /** A ceremony is admitted exactly in its own state, one that enrolls only with a new recovery set. */
  lemma CeremoniesAreAdmitted(data: Record, ceremony: Ceremony, expected: Option<int>, codes: Option<RecoverySet>,
                              matched: Option<int>, newSecret: nat, now: int)
    ensures var verified := VerifyTotp(data, ceremony, expected, codes, matched, newSecret, now);
      verified.Failure? ==>
        verified.error == TotpError || (StateOf(data).Failure? && verified.error == StateOf(data).error)
    ensures VerifyTotp(data, ceremony, expected, codes, matched, newSecret, now).Success? <==>
            && Admits(data, ceremony)
            && (ceremony.Setup? || ceremony.Recovery? ==> codes.Some? && IsRecoverySet(codes.value))
  {
    if codes.Some? {
      RecoverySetsAreValid(codes.value);
    }
  }

  /** A refusal counts once; the fifth in a row locks for five minutes, and each further doubles it to four hours. */
  predicate Refuses(factor: Factor, now: int, next: Factor, result: Verification) {
    var refusals := Min(factor.failures + 1, 1_000_000);
    && next == factor.(failures := refusals, lockedUntil := next.lockedUntil)
    && (refusals < 5 ==> result.Invalid? && next.lockedUntil == factor.lockedUntil)
    && (refusals >= 5 ==> result.Locked? && next.lockedUntil == Some(now + Min(Doubled(300, refusals - 5), 14_400)))
  }

  lemma RefusalIsCounted(factor: Factor, now: int)
    requires Validated(factor)
    ensures var (next, result) := RecordFailure(factor, now); Refuses(factor, now, next, result)
  {
    var refusals := Min(factor.failures + 1, 1_000_000);
    if refusals >= 5 {
      LockDoubles(refusals);
      DoubledGrows(300, refusals - 5);
    }
  }

  /** What accepting a code leaves of a factor: an enrollment becomes active now, and no refusal or lock stays. */
  function AcceptedFactor(factor: Factor, matched: Option<int>, now: int): Factor {
    factor.(status := Active, expiresAt := None, lastAcceptedStep := matched, failures := 0, lockedUntil := None,
            activatedAt := if factor.status.Pending? then Some(now) else factor.activatedAt)
  }

  /**
  An admitted code is told exactly one answer: changed for another generation's ticket, expired past the window, locked
  while the lock holds, accepted when it is later, and otherwise refused.
  */
  lemma TotpIsAnswered(data: Record, ceremony: Ceremony, expected: Option<int>, codes: Option<RecoverySet>,
                       matched: Option<int>, newSecret: nat, now: int)
    requires VerifyTotp(data, ceremony, expected, codes, matched, newSecret, now).Success?
    ensures var (next, result) := VerifyTotp(data, ceremony, expected, codes, matched, newSecret, now).value;
      var factor := data.totp.value;
      if !TicketIsCurrent(data, expected) then result.Changed? && next == data
      else if WindowIsPast(factor, now) then result.Expired? && next == data
      else if LockHolds(factor, now) then result.Locked? && next == data.(counters := next.counters)
      else if IsLater(factor, matched) then
        && result.Accepted? && next.totp == Present(AcceptedFactor(factor, matched, now))
        && next == data.(totp := next.totp, counters := next.counters, codes := next.codes,
                         generation := next.generation, sessionSecret := next.sessionSecret)
      else
        && next.totp.Present? && Refuses(factor, now, next.totp.value, result)
        && next == data.(totp := next.totp, counters := next.counters)
  {
    RefusalIsCounted(data.totp.value, now);
  }

  // ---- Recovery codes ----

  /** Some unused code of the set has this digest. */
  predicate HasUnused(codes: RecoverySet, digest: Option<string>) {
    exists code <- codes.codes :: code.usedAt.None? && digest == Some(code.digest)
  }

  lemma UnusedIsFound(codes: RecoverySet, digest: Option<string>)
    ensures Unused(codes.codes, digest) > 0 <==> HasUnused(codes, digest)
  {
    var place := Unused(codes.codes, digest);
    if place > 0 {
      assert codes.codes[place - 1] in codes.codes;
    }
  }

  /** Where a recovery code is looked at. */
  predicate AdmitsRecovery(data: Record) {
    IsIn(data, Configured) || IsIn(data, RecoveryEnrollment)
  }

  predicate CandidateIsCurrent(data: Record, candidate: Candidate, expected: int)
    requires data.codes.Present?
  {
    data.generation == Present(expected) && candidate.salt == data.codes.value.salt
  }

  /**
  A recovery code is looked at once a set exists, and told one answer: changed for another generation or set, locked
  while TOTP's lock holds, accepted exactly when an unused code has its digest, and otherwise refused like a TOTP code.
  */
  lemma RecoveryIsAnswered(data: Record, candidate: Candidate, expected: int, totpSecret: nat, newSecret: nat, now: int)
    ensures var spent := SpendRecoveryCode(data, candidate, expected, totpSecret, newSecret, now);
      spent.Failure? ==> spent.error == ErrorOf(data, None, TotpError)
    ensures AdmitsRecovery(data) ==> data.codes.Present? && data.totp.Present?
    ensures SpendRecoveryCode(data, candidate, expected, totpSecret, newSecret, now).Success? <==>
            && AdmitsRecovery(data)
            && (now >= 30 || !CandidateIsCurrent(data, candidate, expected) || LockHolds(data.totp.value, now)
                || !HasUnused(data.codes.value, candidate.digest))
    ensures SpendRecoveryCode(data, candidate, expected, totpSecret, newSecret, now).Success? ==>
              var (next, result) := SpendRecoveryCode(data, candidate, expected, totpSecret, newSecret, now).value;
              var factor := data.totp.value;
              if !CandidateIsCurrent(data, candidate, expected) then result.Changed? && next == data
              else if LockHolds(factor, now) then result.Locked? && next == data.(counters := next.counters)
              else if HasUnused(data.codes.value, candidate.digest) then
                && result.Accepted?
                && next == data.(codes := next.codes, totp := Present(NewFactor(totpSecret, now)),
                                 generation := Present(expected + 1), sessionSecret := Present(newSecret))
              else
                && next.totp.Present? && Refuses(factor, now, next.totp.value, result)
                && next == data.(totp := next.totp, counters := next.counters)
  {
    if AdmitsRecovery(data) {
      UnusedIsFound(data.codes.value, candidate.digest);
      RefusalIsCounted(data.totp.value, now);
    }
  }

  /** A replacement stores the whole new set, and nothing else but the generation changes. */
  lemma ReplacementIsStored(data: Record, codes: RecoverySet)
    ensures var replaced := ReplaceRecoveryCodes(data, codes);
      replaced.Failure? ==>
        replaced.error == ErrorOf(data, if IsRecoverySet(codes) then None else Some(TotpError), TotpError)
    ensures ReplaceRecoveryCodes(data, codes).Success? <==> IsIn(data, Configured) && IsRecoverySet(codes)
    ensures ReplaceRecoveryCodes(data, codes).Success? ==>
              ReplaceRecoveryCodes(data, codes).value.0 ==
              data.(codes := Present(codes), generation := Present(data.generation.value + 1))
  {
    RecoverySetsAreValid(codes);
  }

  // ---- Sessions and reported failures ----

  /** An acknowledgment takes as many reported failures as it names, or all there are. */
  lemma AcknowledgmentTakes(data: Record, count: nat)
    ensures Acknowledge(data, count).Failure? ==>
              Acknowledge(data, count).error == ErrorOf(data, None, PasswordRecord)
    ensures Acknowledge(data, count).Success? <==> IsIn(data, Configured)
    ensures Acknowledge(data, count).Success? ==>
              var next := Acknowledge(data, count).value.0;
              && next == data.(counters := next.counters) && next.counters.Present?
              && next.counters.value.sinceSignIn == data.counters.value.sinceSignIn
              && next.counters.value.unacknowledged == data.counters.value.unacknowledged
                 - Min(count, data.counters.value.unacknowledged)
  {
  }

  /** A logout answers whether it changed the session secret: on a configured record, for a session that is valid. */
  lemma LogoutIsAnswered(data: Record, presentedIsValid: bool, newSecret: nat)
    ensures Logout(data, presentedIsValid, newSecret).Success? <==> StateOf(data).Success?
    ensures Logout(data, presentedIsValid, newSecret).Success? ==>
              var (next, rotated) := Logout(data, presentedIsValid, newSecret).value;
              && (rotated <==> IsIn(data, Configured) && presentedIsValid)
              && next == if rotated then data.(sessionSecret := Present(newSecret)) else data
  {
  }

  // ---- Passkeys ----

  function InvalidArgument(passkey: Passkey): Option<StateError> {
    if ValidPasskey(passkey) then None else Some(PasskeyInvalid)
  }

  /** `places` are the places of the passkeys in use, in order, and `kept` the passkeys there. */
  ghost predicate SelectsInUse(passkeys: seq<Passkey>, places: seq<nat>, kept: seq<Passkey>) {
    && |kept| == |places| && Rising(places)
    && (forall i | 0 <= i < |places| :: places[i] < |passkeys| && kept[i] == passkeys[places[i]])
    && forall k | 0 <= k < |passkeys| :: passkeys[k].status.InUse? <==> k in places
  }

  lemma {:induction false} InUseAreSelected(passkeys: seq<Passkey>) returns (places: seq<nat>)
    ensures SelectsInUse(passkeys, places, InUseOf(passkeys))
  {
    places := [];
    if passkeys != [] {
      places := InUseAreSelected(passkeys[..|passkeys| - 1]);
      SelectsOneMore(passkeys, places, InUseOf(passkeys[..|passkeys| - 1]));
      if passkeys[|passkeys| - 1].status.InUse? {
        places := places + [|passkeys| - 1];
      }
    }
  }

  lemma SelectsOneMore(passkeys: seq<Passkey>, places: seq<nat>, kept: seq<Passkey>)
    requires passkeys != [] && SelectsInUse(passkeys[..|passkeys| - 1], places, kept)
    ensures var last := |passkeys| - 1;
      if passkeys[last].status.InUse? then SelectsInUse(passkeys, places + [last], kept + [passkeys[last]])
      else SelectsInUse(passkeys, places, kept)
  {
    var last := |passkeys| - 1;
    var longer := places + [last];
    assert longer[|places|] == last && last in longer && last !in places;
    forall k | 0 <= k < last ensures k in longer <==> k in places {}
    forall k | 0 <= k < last ensures passkeys[k].status.InUse? <==> k in places {
      assert passkeys[..last][k] == passkeys[k];
    }
  }

  /** Fewer passkeys in use than a record may hold, none of them of this credential. */
  ghost predicate HasRoomFor(passkeys: seq<Passkey>, credentialId: string) {
    && (forall passkey <- passkeys :: passkey.status.InUse? ==> passkey.credentialId != credentialId)
    && exists places: seq<nat>, kept: seq<Passkey> :: SelectsInUse(passkeys, places, kept) && |places| < 8
  }

  lemma InUseIsUnique(passkeys: seq<Passkey>, places: seq<nat>, kept: seq<Passkey>, others: seq<nat>,
                      otherKept: seq<Passkey>)
    requires SelectsInUse(passkeys, places, kept) && SelectsInUse(passkeys, others, otherKept)
    ensures |places| == |others|
  {
    assert forall k :: k in places <==> k in others;
    assert Elements(places) == Elements(others);
    RisingCount(places);
    RisingCount(others);
  }

  lemma RoomIsCounted(passkeys: seq<Passkey>, credentialId: string)
    ensures HasRoomFor(passkeys, credentialId) <==>
            |InUseOf(passkeys)| < 8 && credentialId !in CredentialIds(InUseOf(passkeys))
  {
    var places := InUseAreSelected(passkeys);
    var kept := InUseOf(passkeys);
    if HasRoomFor(passkeys, credentialId) {
      var others: seq<nat>, otherKept: seq<Passkey> :| SelectsInUse(passkeys, others, otherKept) && |others| < 8;
      InUseIsUnique(passkeys, places, kept, others, otherKept);
      forall i | 0 <= i < |kept| ensures kept[i].credentialId != credentialId {
        assert passkeys[places[i]] in passkeys && places[i] in places;
      }
    }
    if |kept| < 8 && credentialId !in CredentialIds(kept) {
      forall passkey <- passkeys | passkey.status.InUse? ensures passkey.credentialId != credentialId {
        var k :| 0 <= k < |passkeys| && passkeys[k] == passkey;
        var i :| 0 <= i < |places| && places[i] == k;
        assert CredentialIds(kept)[i] == passkey.credentialId;
      }
    }
  }

  /**
  A passkey is added exactly to a configured record of the ticket's generation that has room for it: every passkey in
  use stays, in order and unchanged, the new one comes last, suspended ones go, and nothing but the generation and the
  session secret changes besides.
  */
  lemma AddedJoinsThoseInUse(data: Record, passkey: Passkey, expected: int, newSecret: nat)
    ensures var added, refused := AddPasskey(data, passkey, expected, newSecret), InvalidArgument(passkey);
      added.Failure? ==> added.error == ErrorOf(data, refused, PasskeyConflict)
    ensures AddPasskey(data, passkey, expected, newSecret).Success? <==>
            && IsIn(data, Configured) && data.generation == Present(expected) && IsSound(passkey)
            && HasRoomFor(data.passkeys.value, passkey.credentialId)
    ensures AddPasskey(data, passkey, expected, newSecret).Success? ==>
              var next := AddPasskey(data, passkey, expected, newSecret).value.0;
              && next.passkeys.Present? && next.passkeys.value != [] && Last(next.passkeys.value) == passkey
              && (exists places :: SelectsInUse(data.passkeys.value, places, Before(next.passkeys.value)))
              && next == data.(passkeys := next.passkeys, generation := Present(expected + 1),
                               sessionSecret := Present(newSecret))
    ensures AddPasskey(data, passkey, expected, newSecret).Success? ==>
              forall p :: p in AddPasskey(data, passkey, expected, newSecret).value.0.passkeys.value <==>
                          p == passkey || (p in data.passkeys.value && p.status.InUse?)
  {
    if IsIn(data, Configured) {
      RoomIsCounted(data.passkeys.value, passkey.credentialId);
      var places := InUseAreSelected(data.passkeys.value);
      assert Before(InUseOf(data.passkeys.value) + [passkey]) == InUseOf(data.passkeys.value);
      InUseHolds(data.passkeys.value, places);
    }
  }

  lemma InUseHolds(passkeys: seq<Passkey>, places: seq<nat>)
    requires SelectsInUse(passkeys, places, InUseOf(passkeys))
    ensures forall p :: p in InUseOf(passkeys) <==> p in passkeys && p.status.InUse?
  {
    forall p | p in passkeys && p.status.InUse? ensures p in InUseOf(passkeys) {
      var k :| 0 <= k < |passkeys| && passkeys[k] == p;
      var i :| 0 <= i < |places| && places[i] == k;
      assert InUseOf(passkeys)[i] == p;
    }
    forall p | p in InUseOf(passkeys) ensures p in passkeys && p.status.InUse? {
      var i :| 0 <= i < |places| && InUseOf(passkeys)[i] == p;
      assert places[i] in places;
    }
  }

  /** The counter did not advance, or the authenticator is not the one backed up, or not, that was registered. */
  predicate ShowsAClone(original: Passkey, assertion: Assertion) {
    || (original.signCount > 0 && assertion.signCount <= original.signCount)
    || assertion.backupEligible != original.backupEligible
    || (assertion.backupState && !assertion.backupEligible)
  }

  /**
  An assertion is committed exactly on a configured record of its generation that still holds the very passkey its
  ceremony began with. It suspends that passkey exactly when it shows a clone, and otherwise stores its counter.
  */
  lemma AssertionIsCommitted(data: Record, original: Passkey, assertion: Assertion, expected: int, signIn: bool,
                             newSecret: nat, now: int)
    ensures var committed := CommitAssertion(data, original, assertion, expected, signIn, newSecret, now);
      committed.Failure? ==> committed.error == ErrorOf(data, InvalidArgument(original), PasskeyConflict)
    ensures CommitAssertion(data, original, assertion, expected, signIn, newSecret, now).Success? <==>
            && IsSound(original) && IsIn(data, Configured) && data.generation == Present(expected)
            && original in data.passkeys.value && original.credentialId == assertion.credentialId
    ensures CommitAssertion(data, original, assertion, expected, signIn, newSecret, now).Success? ==>
              var (next, suspended) :=
                CommitAssertion(data, original, assertion, expected, signIn, newSecret, now).value;
              && (suspended <==> ShowsAClone(original, assertion))
              && next == data.(passkeys := next.passkeys, generation := next.generation, counters := next.counters,
                               sessionSecret := next.sessionSecret)
              && next.passkeys.Present? && |next.passkeys.value| == |data.passkeys.value|
              && forall i | 0 <= i < |data.passkeys.value| ::
                   next.passkeys.value[i] ==
                   if data.passkeys.value[i] == original then UsedPasskey(original, assertion, suspended, now)
                   else data.passkeys.value[i]
  {
    if IsIn(data, Configured) {
      PasskeysAreDistinct(data.passkeys.value);
      PlaceFindsIt(data.passkeys.value, original, assertion.credentialId);
    }
  }

  /** The passkey of a credential is at its place, and nowhere else. */
  lemma PlaceFindsIt(passkeys: seq<Passkey>, original: Passkey, credentialId: string)
    requires forall i, j | 0 <= i < j < |passkeys| :: passkeys[i].credentialId != passkeys[j].credentialId
    ensures var place := Place(passkeys, credentialId);
      && (place > 0 && passkeys[place - 1] == original <==>
            original in passkeys && original.credentialId == credentialId)
      && (place > 0 ==> forall i | 0 <= i < |passkeys| :: passkeys[i] == passkeys[place - 1] <==> i == place - 1)
  {
    var place := Place(passkeys, credentialId);
    if original in passkeys && original.credentialId == credentialId {
      var k :| 0 <= k < |passkeys| && passkeys[k] == original;
      assert place == k + 1;
    }
  }

  function UsedPasskey(passkey: Passkey, assertion: Assertion, suspended: bool, now: int): Passkey {
    if suspended then passkey.(lastUsedAt := now, updatedAt := now, status := Suspended)
    else passkey.(lastUsedAt := now, updatedAt := now, signCount := assertion.signCount,
                  backupState := assertion.backupState)
  }

  // ---- Every operation ----

  /** What a transaction does not persist would have changed nothing. */
  lemma UnwrittenChangesNothing(data: Record, op: Op)
    requires Apply(data, op).Success? && !Writes(op, Apply(data, op).value.1)
    ensures Apply(data, op).value.0 == data
  {
  }
}
