/** What every factor operation keeps of a valid record, and what it changes. */
module FactorLaws {
  import opened Classify
  import opened Factors
  import opened Lists
  import opened Store
  import opened Totp
  import opened Wrappers

  // ---- Validity and the ladder of states ----

  /** Whether a code of this ticket would complete the enrollment of the pending factor. */
  predicate WouldEnroll(data: Record, op: Op) {
    && op.Verifies? && Enrolls(op.ceremony) && !IsStale(data, op)
    && data.totp.Present? && Validated(data.totp.value) && Accepts(data.totp.value, op.matched, op.now)
  }

  /** The clock an operation needs: neither an activation nor a use of a passkey before its creation. */
  predicate ClockFits(data: Record, op: Op) {
    && (WouldEnroll(data, op) ==> op.now >= data.totp.value.createdAt)
    && (op.Asserts? ==> op.now >= op.original.createdAt)
  }

  /** The generation an operation's ticket was issued under, when it carries one. */
  function TicketGeneration(op: Op): Option<int> {
    match op
    case Verifies(_, expected, _, _, _, _) => expected
    case Spends(_, expected, _, _, _) => Some(expected)
    case Adds(_, expected, _) => Some(expected)
    case Asserts(_, _, expected, _, _, _) => Some(expected)
    case _ => None
  }

  /** The ticket is of another generation than the record's. */
  predicate IsStale(data: Record, op: Op) {
    TicketGeneration(op).Some? && data.generation != Present(TicketGeneration(op).value)
  }

  /** Where an operation leads: up to configured, and between configured and recovery enrollment, never back. */
  function After(state: AuthState, op: Op, outcome: Outcome): AuthState {
    match op
    case Begins(_, _) => EnrollmentRequired
    case Verifies(ceremony, _, _, _, _, _) =>
      if Enrolls(ceremony) && outcome == Attempted(Accepted) then Configured else state
    case Spends(_, _, _, _, _) => if outcome == Attempted(Accepted) then RecoveryEnrollment else state
    case _ => state
  }

  lemma BeginKeepsValid(data: Record, identity: NewIdentity, now: int)
    requires BeginSetup(data, identity, now).Success?
    ensures StateOf(BeginSetup(data, identity, now).value.0) == Success(EnrollmentRequired)
  {
    assert Values([]) == {};
  }

  lemma VerifyTotpKeepsValid(data: Record, ceremony: Ceremony, expected: Option<int>, codes: Option<RecoverySet>,
                             matched: Option<int>, newSecret: nat, now: int)
    requires VerifyTotp(data, ceremony, expected, codes, matched, newSecret, now).Success?
    ensures var (next, result) := VerifyTotp(data, ceremony, expected, codes, matched, newSecret, now).value;
      if Enrolls(ceremony) && result.Accepted? then
        StateOf(next) == if now >= data.totp.value.createdAt then Success(Configured) else Failure(PasswordRecord)
      else StateOf(next) == StateOf(data)
  {
    VerifyKeepsValid(data.totp.value, matched, now);
    AcceptedStepsRise(data.totp.value, matched, now);
  }

  /** Using one code up keeps a valid set. */
  lemma SpentKeepsCodes(recovery: RecoverySet, place: nat, now: int)
    requires ValidCodes(recovery) && place < |recovery.codes| && now >= 1
    ensures ValidCodes(recovery.(codes := recovery.codes[place := recovery.codes[place].(usedAt := Some(now))]))
  {
    var spent := recovery.codes[place := recovery.codes[place].(usedAt := Some(now))];
    assert Digests(spent) == Digests(recovery.codes);
  }

  lemma SpendKeepsValid(data: Record, candidate: Candidate, expected: int, totpSecret: nat, newSecret: nat, now: int)
    requires SpendRecoveryCode(data, candidate, expected, totpSecret, newSecret, now).Success?
    ensures var (next, result) := SpendRecoveryCode(data, candidate, expected, totpSecret, newSecret, now).value;
      StateOf(next) == if result.Accepted? then Success(RecoveryEnrollment) else StateOf(data)
  {
    var place := Unused(data.codes.value.codes, candidate.digest);
    if place > 0 && now >= PERIOD_SECONDS {
      SpentKeepsCodes(data.codes.value, place - 1, now);
    }
  }

  lemma {:induction false} InUseAreValid(passkeys: seq<Passkey>)
    requires Distinct(CredentialIds(passkeys)) && forall passkey <- passkeys :: ValidPasskey(passkey)
    ensures Distinct(CredentialIds(InUseOf(passkeys))) && |InUseOf(passkeys)| <= |passkeys|
    ensures forall passkey <- InUseOf(passkeys) :: ValidPasskey(passkey) && passkey in passkeys
  {
    if passkeys != [] {
      var rest, last := passkeys[..|passkeys| - 1], passkeys[|passkeys| - 1];
      assert CredentialIds(rest) == CredentialIds(passkeys)[..|rest|];
      InUseAreValid(rest);
      forall i | 0 <= i < |InUseOf(rest)| ensures CredentialIds(InUseOf(rest))[i] != last.credentialId {
        assert InUseOf(rest)[i] in rest;
        var k :| 0 <= k < |rest| && rest[k] == InUseOf(rest)[i];
        assert CredentialIds(passkeys)[k] != CredentialIds(passkeys)[|rest|];
      }
    }
  }

  lemma AddKeepsValid(data: Record, passkey: Passkey, expected: int, newSecret: nat)
    requires AddPasskey(data, passkey, expected, newSecret).Success?
    ensures StateOf(AddPasskey(data, passkey, expected, newSecret).value.0) == Success(Configured)
  {
    var inUse := InUseOf(data.passkeys.value);
    ValuesCount(CredentialIds(data.passkeys.value));
    InUseAreValid(data.passkeys.value);
    ValuesCount(CredentialIds(inUse + [passkey]));
    forall i | 0 <= i < |inUse| ensures CredentialIds(inUse)[i] != passkey.credentialId {
      assert CredentialIds(inUse)[i] in CredentialIds(inUse);
    }
  }

  lemma ReplacedKeepsValid(passkeys: seq<Passkey>, place: nat, passkey: Passkey)
    requires ValidPasskeys(passkeys) && place < |passkeys| && passkey.credentialId == passkeys[place].credentialId
    ensures ValidPasskeys(passkeys[place := passkey]) <==> ValidPasskey(passkey)
  {
    assert CredentialIds(passkeys[place := passkey]) == CredentialIds(passkeys);
    assert passkeys[place := passkey][place] in passkeys[place := passkey];
    assert forall i | 0 <= i < |passkeys| && i != place :: passkeys[place := passkey][i] == passkeys[i];
  }

  lemma AssertionKeepsValid(data: Record, original: Passkey, assertion: Assertion, expected: int, signIn: bool,
                            newSecret: nat, now: int)
    requires CommitAssertion(data, original, assertion, expected, signIn, newSecret, now).Success?
    ensures var (next, _) := CommitAssertion(data, original, assertion, expected, signIn, newSecret, now).value;
      StateOf(next) == if now >= original.createdAt then Success(Configured) else Failure(PasswordRecord)
  {
    var place := Place(data.passkeys.value, assertion.credentialId);
    ReplacedKeepsValid(data.passkeys.value, place - 1, AppliedAssertion(original, assertion, now));
  }

  /**
  Every operation on a valid record leaves a valid one exactly when its clock fits, in the state the operation leads to;
  a record whose clock did not fit needs recovery.
  */
  lemma ApplyKeepsValid(data: Record, op: Op)
    requires StateOf(data).Success? && Apply(data, op).Success?
    ensures var (next, outcome) := Apply(data, op).value;
      StateOf(next) == if ClockFits(data, op) then Success(After(StateOf(data).value, op, outcome))
                       else Failure(PasswordRecord)
  {
    match op
    case Begins(identity, now) =>
      BeginKeepsValid(data, identity, now);
    case Verifies(ceremony, expected, codes, matched, newSecret, now) =>
      VerifyTotpKeepsValid(data, ceremony, expected, codes, matched, newSecret, now);
    case Spends(candidate, expected, totpSecret, newSecret, now) =>
      SpendKeepsValid(data, candidate, expected, totpSecret, newSecret, now);
    case Adds(passkey, expected, newSecret) =>
      AddKeepsValid(data, passkey, expected, newSecret);
    case Asserts(original, assertion, expected, signIn, newSecret, now) =>
      AssertionKeepsValid(data, original, assertion, expected, signIn, newSecret, now);
    case Resumes(_) =>
    case Replaces(_) =>
    case Acknowledges(_) =>
    case LogsOut(_, _) =>
  }

  /** No password and nothing else. */
  function Empty(): Record {
    Record(Absent, Absent, Absent, Absent, Absent, Absent, Absent, Absent, Absent, Absent, Absent, Absent, Absent)
  }

  /** A clock set back between a setup and its confirmation: the accepted code leaves a record that needs recovery. */
  lemma ClockSetBackNeedsRecovery(identity: NewIdentity, codes: RecoverySet, newSecret: nat)
    requires ValidCodes(codes)
    ensures StateOf(Empty()) == Success(Uninitialized) && BeginSetup(Empty(), identity, 1000).Success?
    ensures var pending := BeginSetup(Empty(), identity, 1000).value.0;
      var confirmed := VerifyTotp(pending, Setup, Some(1), Some(codes), Some(33), newSecret, 999);
      && StateOf(pending) == Success(EnrollmentRequired) && Matches(Some(33), 999)
      && confirmed.Success? && confirmed.value.1 == Accepted && StateOf(confirmed.value.0) == Failure(PasswordRecord)
  {
    BeginKeepsValid(Empty(), identity, 1000);
    var pending := BeginSetup(Empty(), identity, 1000).value.0;
    VerifyTotpKeepsValid(pending, Setup, Some(1), Some(codes), Some(33), newSecret, 999);
  }

  // ---- The factor generation ----

  datatype Shape = Shape(
    secret: nat, status: Status, salt: Option<string>, digests: seq<string>,
    passkeys: seq<(string, string, PasskeyStatus)>)

  /** What proves a Supervisor: the TOTP secret and its status, the recovery set, and each passkey's standing. */
  function ShapeOf(data: Record): Shape
    requires HasFactors(data)
  {
    Shape(data.totp.value.secret, data.totp.value.status,
          if data.codes.Present? then Some(data.codes.value.salt) else None,
          if data.codes.Present? then Digests(data.codes.value.codes) else [],
          Standings(data.passkeys.value))
  }

  function Standings(passkeys: seq<Passkey>): seq<(string, string, PasskeyStatus)> {
    seq(|passkeys|, i requires 0 <= i < |passkeys| =>
      (passkeys[i].credentialId, passkeys[i].publicKey, passkeys[i].status))
  }

  /** Whether an outcome changed what proves a Supervisor. */
  predicate ChangesFactors(op: Op, outcome: Outcome) {
    match op
    case Verifies(ceremony, _, _, _, _, _) => Enrolls(ceremony) && outcome == Attempted(Accepted)
    case Spends(_, _, _, _, _) => outcome == Attempted(Accepted)
    case Replaces(_) => true
    case Adds(_, _, _) => true
    case Asserts(_, _, _, _, _, _) => outcome == Decided(true)
    case _ => false
  }

  /** One outcome's account of the generation, the factors and the session secret. */
  predicate Accounts(data: Record, next: Record, op: Op, outcome: Outcome)
    requires HasFactors(data)
  {
    && next.generation == Present(data.generation.value + if ChangesFactors(op, outcome) then 1 else 0)
    && (HasFactors(next) && ShapeOf(next) != ShapeOf(data) ==> ChangesFactors(op, outcome))
    && next.sessionSecret == if Rotates(op, outcome) then Present(NewSecret(op)) else data.sessionSecret
  }

  /** Whether an outcome ends every session: a factor change other than a replaced recovery set, or a logout. */
  predicate Rotates(op: Op, outcome: Outcome) {
    (ChangesFactors(op, outcome) && !op.Replaces?) || (op.LogsOut? && outcome == Decided(true))
  }

  function NewSecret(op: Op): nat {
    match op
    case Verifies(_, _, _, _, newSecret, _) => newSecret
    case Spends(_, _, _, newSecret, _) => newSecret
    case LogsOut(_, newSecret) => newSecret
    case Adds(_, _, newSecret) => newSecret
    case Asserts(_, _, _, _, newSecret, _) => newSecret
    case _ => 0
  }

  lemma AttemptAccounts(data: Record, op: Op)
    requires HasFactors(data) && op.Verifies? && Apply(data, op).Success?
    ensures Accounts(data, Apply(data, op).value.0, op, Apply(data, op).value.1)
  {
    AcceptedStepsRise(data.totp.value, op.matched, op.now);
    VerifyActivates(data.totp.value, op.matched, op.now);
  }

  lemma SpendAccounts(data: Record, op: Op)
    requires HasFactors(data) && op.Spends? && Apply(data, op).Success?
    ensures Accounts(data, Apply(data, op).value.0, op, Apply(data, op).value.1)
  {
  }

  lemma AssertionAccounts(data: Record, op: Op)
    requires HasFactors(data) && op.Asserts? && Apply(data, op).Success?
    ensures Accounts(data, Apply(data, op).value.0, op, Apply(data, op).value.1)
  {
    var Asserts(original, assertion, expected, signIn, newSecret, now) := op;
    CommitAccounts(data, original, assertion, expected, signIn, newSecret, now);
    var next := Apply(data, op).value.0;
    if !Suspends(original, assertion) && HasFactors(next) {
      assert ShapeOf(next) == ShapeOf(data);
    }
  }

  /** A suspended passkey raises the generation; any other assertion leaves what proves a Supervisor as it was. */
  lemma CommitAccounts(data: Record, original: Passkey, assertion: Assertion, expected: int, signIn: bool,
                       newSecret: nat, now: int)
    requires HasFactors(data)
    requires CommitAssertion(data, original, assertion, expected, signIn, newSecret, now).Success?
    ensures var (next, suspended) := CommitAssertion(data, original, assertion, expected, signIn, newSecret, now).value;
      && suspended == Suspends(original, assertion) && next.passkeys.Present?
      && next.generation == Present(data.generation.value + if suspended then 1 else 0)
      && (suspended ==> next.sessionSecret == Present(newSecret))
      && (!suspended ==>
            && next.totp == data.totp && next.codes == data.codes && next.sessionSecret == data.sessionSecret
            && Standings(next.passkeys.value) == Standings(data.passkeys.value))
  {
    CommitWrites(data, original, assertion, expected, signIn, newSecret, now);
    StandingStays(data.passkeys.value, original, assertion, now);
  }

  lemma CommitWrites(data: Record, original: Passkey, assertion: Assertion, expected: int, signIn: bool,
                     newSecret: nat, now: int)
    requires CommitAssertion(data, original, assertion, expected, signIn, newSecret, now).Success?
    ensures data.passkeys.Present? && data.generation == Present(expected)
    ensures var (next, suspended) := CommitAssertion(data, original, assertion, expected, signIn, newSecret, now).value;
      var place := Place(data.passkeys.value, assertion.credentialId);
      && suspended == Suspends(original, assertion) && place > 0 && data.passkeys.value[place - 1] == original
      && next.passkeys == Present(data.passkeys.value[place - 1 := AppliedAssertion(original, assertion, now)])
      && next.generation == Present(data.generation.value + if suspended then 1 else 0)
      && next.sessionSecret == (if suspended then Present(newSecret) else data.sessionSecret)
      && next.totp == data.totp && next.codes == data.codes
  {
  }

  /**
  The generation rises by exactly one for an outcome that changes the factors, and only then; what proves a Supervisor
  never changes without it, and the session secret becomes the new one exactly when sessions must end.
  */
  lemma GenerationCountsFactorChanges(data: Record, op: Op)
    requires HasFactors(data) && Apply(data, op).Success?
    ensures Accounts(data, Apply(data, op).value.0, op, Apply(data, op).value.1)
  {
    if op.Verifies? {
      AttemptAccounts(data, op);
    } else if op.Spends? {
      SpendAccounts(data, op);
    } else if op.Asserts? {
      AssertionAccounts(data, op);
    }
  }

  lemma VerifyActivates(factor: Factor, matched: Option<int>, now: int)
    requires Validated(factor)
    ensures var (next, result) := Verify(factor, matched, now);
      next.status == if result.Accepted? then Active else factor.status
  {
  }

  lemma StandingStays(passkeys: seq<Passkey>, original: Passkey, assertion: Assertion, now: int)
    ensures var place := Place(passkeys, assertion.credentialId);
      place > 0 && passkeys[place - 1] == original && !Suspends(original, assertion) ==>
        Standings(passkeys[place - 1 := AppliedAssertion(original, assertion, now)]) == Standings(passkeys)
  {
  }

  // ---- What an accepted ceremony leaves ----

  /** How many codes of a set are unused. */
  function Remaining(codes: seq<Code>): nat {
    if codes == [] then 0
    else Remaining(codes[..|codes| - 1]) + (if codes[|codes| - 1].usedAt.None? then 1 else 0)
  }

  lemma {:induction false} UsingTakesOne(codes: seq<Code>, place: nat, now: int)
    requires place < |codes| && codes[place].usedAt.None?
    ensures Remaining(codes[place := codes[place].(usedAt := Some(now))]) == Remaining(codes) - 1
  {
    var spent := codes[place := codes[place].(usedAt := Some(now))];
    if place == |codes| - 1 {
      assert spent[..place] == codes[..place];
    } else {
      assert spent[..|codes| - 1] == codes[..|codes| - 1][place := codes[place].(usedAt := Some(now))];
      UsingTakesOne(codes[..|codes| - 1], place, now);
    }
  }

  /** The k-th code, unused and of this digest, is used now, and every other code is as it was. */
  predicate UsesUp(before: seq<Code>, after: seq<Code>, k: int, digest: Option<string>, now: int) {
    && |before| == |after| && 0 <= k < |before| && before[k].usedAt.None? && digest == Some(before[k].digest)
    && after[k] == before[k].(usedAt := Some(now))
    && forall i | 0 <= i < |before| && i != k :: after[i] == before[i]
  }

  /** An accepted recovery code is the one matching unused code: it is used up, no other is, and TOTP starts anew. */
  lemma AcceptedRecoveryUsesOneCode(data: Record, candidate: Candidate, expected: int, totpSecret: nat, newSecret: nat,
                                    now: int)
    requires SpendRecoveryCode(data, candidate, expected, totpSecret, newSecret, now).Success?
    ensures var (next, result) := SpendRecoveryCode(data, candidate, expected, totpSecret, newSecret, now).value;
      if result.Accepted? then
        && Remaining(next.codes.value.codes) == Remaining(data.codes.value.codes) - 1
        && next.codes.value.salt == data.codes.value.salt == candidate.salt
        && Digests(next.codes.value.codes) == Digests(data.codes.value.codes)
        && next.totp == Present(NewFactor(totpSecret, now)) && next.counters == data.counters
        && exists k :: UsesUp(data.codes.value.codes, next.codes.value.codes, k, candidate.digest, now)
      else next.codes == data.codes
  {
    var codes := data.codes.value.codes;
    if Unused(codes, candidate.digest) > 0 {
      SpentOne(codes, candidate.digest, now);
    }
  }

  lemma SpentOne(codes: seq<Code>, digest: Option<string>, now: int)
    requires Unused(codes, digest) > 0
    ensures var place := Unused(codes, digest) - 1;
      var spent := codes[place := codes[place].(usedAt := Some(now))];
      && Remaining(spent) == Remaining(codes) - 1 && Digests(spent) == Digests(codes)
      && UsesUp(codes, spent, place, digest, now)
  {
    UsingTakesOne(codes, Unused(codes, digest) - 1, now);
  }

  /** An accepted enrollment activates the pending secret and brings in the codes; no other attempt touches them. */
  lemma AcceptedEnrollmentBringsCodes(data: Record, ceremony: Ceremony, expected: Option<int>,
                                      codes: Option<RecoverySet>, matched: Option<int>, newSecret: nat, now: int)
    requires VerifyTotp(data, ceremony, expected, codes, matched, newSecret, now).Success?
    ensures var (next, result) := VerifyTotp(data, ceremony, expected, codes, matched, newSecret, now).value;
      && next.totp.value.secret == data.totp.value.secret
      && if result.Accepted? && Enrolls(ceremony)
         then codes.Some? && next.codes == Present(codes.value) && next.totp.value.status.Active?
         else next.codes == data.codes && next.totp.value.status == data.totp.value.status
  {
    AcceptedStepsRise(data.totp.value, matched, now);
    VerifyActivates(data.totp.value, matched, now);
  }

  /**
  A passkey's signature counter only advances: an assertion that does not advance a counter in use suspends the passkey
  and keeps its counter, and no assertion touches another passkey.
  */
  lemma AssertionsAdvance(data: Record, original: Passkey, assertion: Assertion, expected: int, signIn: bool,
                          newSecret: nat, now: int)
    requires CommitAssertion(data, original, assertion, expected, signIn, newSecret, now).Success?
    ensures var (next, suspended) := CommitAssertion(data, original, assertion, expected, signIn, newSecret, now).value;
      OnlyOwnAdvances(data.passkeys.value, next.passkeys.value, assertion, suspended, now)
  {
    CommitWrites(data, original, assertion, expected, signIn, newSecret, now);
    ValuesCount(CredentialIds(data.passkeys.value));
    AppliedAdvances(data.passkeys.value, original, assertion, now);
  }

  predicate OnlyOwnAdvances(before: seq<Passkey>, after: seq<Passkey>, assertion: Assertion, suspended: bool,
                            now: int)
  {
    && |after| == |before|
    && forall i | 0 <= i < |before| ::
      if before[i].credentialId != assertion.credentialId then after[i] == before[i]
      else Advances(before[i], after[i], assertion, suspended, now)
  }

  /** What an assertion does to its own passkey. */
  predicate Advances(before: Passkey, after: Passkey, assertion: Assertion, suspended: bool, now: int) {
    && after.lastUsedAt == now && after.credentialId == before.credentialId
    && (if suspended then after.status.Suspended? && after.signCount == before.signCount
        else after.signCount == assertion.signCount && (before.signCount > 0 ==> after.signCount > before.signCount))
  }

  lemma AppliedAdvances(passkeys: seq<Passkey>, original: Passkey, assertion: Assertion, now: int)
    requires Distinct(CredentialIds(passkeys)) && Place(passkeys, assertion.credentialId) > 0
    requires passkeys[Place(passkeys, assertion.credentialId) - 1] == original
    ensures var place := Place(passkeys, assertion.credentialId);
      OnlyOwnAdvances(passkeys, passkeys[place - 1 := AppliedAssertion(original, assertion, now)], assertion,
                      Suspends(original, assertion), now)
  {
    PlaceIsOnly(passkeys, assertion.credentialId);
  }

  /** No other passkey has the credential found. */
  lemma PlaceIsOnly(passkeys: seq<Passkey>, credentialId: string)
    requires Distinct(CredentialIds(passkeys)) && Place(passkeys, credentialId) > 0
    ensures forall i | 0 <= i < |passkeys| && i != Place(passkeys, credentialId) - 1 ::
              passkeys[i].credentialId != credentialId
  {
    var place := Place(passkeys, credentialId);
    forall i | 0 <= i < |passkeys| && i != place - 1 ensures passkeys[i].credentialId != credentialId {
      assert CredentialIds(passkeys)[i] != CredentialIds(passkeys)[place - 1];
    }
  }

  // ---- Stale ceremonies ----

  /** An operation from before a factor change changes no factor, counter or secret. */
  lemma StaleChangesNothing(data: Record, op: Op)
    requires HasFactors(data) && IsStale(data, op)
    ensures Apply(data, op).Failure? || Apply(data, op).value == (data, Attempted(Changed))
  {
  }

  // ---- The counters ----

  predicate IsRefused(outcome: Outcome) {
    outcome == Attempted(Invalid) || outcome == Attempted(Locked)
  }

  function Acknowledged(data: Record, op: Op): int
    requires HasFactors(data)
  {
    if op.Acknowledges? then Min(op.count, data.counters.value.unacknowledged) else 0
  }

  /** Whether an outcome completes a sign-in. */
  predicate SignsIn(op: Op, outcome: Outcome) {
    || (op.Verifies? && !op.ceremony.Operation? && outcome == Attempted(Accepted))
    || (op.Asserts? && op.signIn && outcome == Decided(false))
  }

  /**
  Every refusal adds one to the attempts since the last sign-in, a sign-in moves them to those reported, both up to a
  million, and only an acknowledgment takes reported ones away: short of that bound no refused attempt is lost.
  */
  lemma RefusalsAreKept(data: Record, op: Op)
    requires HasFactors(data) && Apply(data, op).Success?
    ensures var (next, outcome) := Apply(data, op).value;
      next.counters.Present? && Keeps(data.counters.value, next.counters.value, op, outcome, Acknowledged(data, op))
  {
    if op.Asserts? {
      AssertionKeepsCounters(data, op);
    } else if op.Verifies? {
      AttemptKeepsCounters(data, op);
    }
  }

  lemma AttemptKeepsCounters(data: Record, op: Op)
    requires HasFactors(data) && op.Verifies? && Apply(data, op).Success?
    ensures var (next, outcome) := Apply(data, op).value;
      next.counters.Present? && Keeps(data.counters.value, next.counters.value, op, outcome, 0)
  {
  }

  lemma AssertionKeepsCounters(data: Record, op: Op)
    requires HasFactors(data) && op.Asserts? && Apply(data, op).Success?
    ensures var (next, outcome) := Apply(data, op).value;
      next.counters.Present? && Keeps(data.counters.value, next.counters.value, op, outcome, 0)
  {
  }

  /** How the two counters stand after an outcome, with what an acknowledgment took. */
  predicate Keeps(before: Counters, after: Counters, op: Op, outcome: Outcome, acknowledged: int) {
    && after.sinceSignIn == (if IsRefused(outcome) then Min(before.sinceSignIn + 1, MAX_SECOND_FACTOR_FAILURES)
                             else if SignsIn(op, outcome) then 0 else before.sinceSignIn)
    && after.unacknowledged ==
       (if SignsIn(op, outcome) then Min(before.unacknowledged + before.sinceSignIn, MAX_SECOND_FACTOR_FAILURES)
        else before.unacknowledged - acknowledged)
    && (before.sinceSignIn + before.unacknowledged < MAX_SECOND_FACTOR_FAILURES ==>
          after.sinceSignIn + after.unacknowledged == before.sinceSignIn + before.unacknowledged
            + (if IsRefused(outcome) then 1 else 0) - acknowledged)
  }
}
