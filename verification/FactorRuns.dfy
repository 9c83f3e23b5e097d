/**
Runs of factor operations, each one transaction that may be refused, fail, or be persisted without an answer, in any
order and at any clock, with losses of power between them that may take back what was never confirmed.
*/
module FactorRuns {
  import opened Classify
  import opened Disks
  import opened FactorLaws
  import opened Factors
  import opened Store
  import opened Totp
  import opened Wrappers

  datatype Step = Step(op: Op, commit: Commit)

  /** What happens to the store's file: an operation, its content reaching the disk, or a loss of power. */
  datatype Event = Does(step: Step) | Sync | PowerLoss(kept: Record)

  function Transacted(data: Record, step: Step): (Record, Result<Outcome, StateError>) {
    var updated := Apply(data, step.op);
    Transact(data, updated, updated.Success? && Writes(step.op, updated.value.1), step.commit)
  }

  function DiskAfter(disk: Disk<Record>, step: Step): Disk<Record> {
    var updated := Apply(disk.file, step.op);
    Committed(disk, updated, updated.Success? && Writes(step.op, updated.value.1), step.commit).0
  }

  predicate Next(before: Disk<Record>, event: Event, after: Disk<Record>) {
    match event
    case Does(step) => after == DiskAfter(before, step)
    case Sync => after == Synced(before)
    case PowerLoss(kept) => kept in before.possible && after == Lasting(kept)
  }

  ghost predicate IsRun(disks: seq<Disk<Record>>, events: seq<Event>) {
    && |disks| == |events| + 1 && Kept(disks[0])
    && forall i | 0 <= i < |events| :: Next(disks[i], events[i], disks[i + 1])
  }

  /** The file shows what the transaction left, and a loss of power may leave nothing else that is new. */
  lemma OperationWrites(disk: Disk<Record>, step: Step)
    requires Kept(disk)
    ensures var next := DiskAfter(disk, step);
      && Kept(next) && next.file == Transacted(disk.file, step).0
      && forall record <- next.possible :: record in disk.possible || record == next.file
  {
  }

  lemma {:induction false} RunKeeps(disks: seq<Disk<Record>>, events: seq<Event>, i: nat)
    requires IsRun(disks, events) && i < |disks|
    ensures Kept(disks[i])
  {
    if i > 0 {
      RunKeeps(disks, events, i - 1);
      assert Next(disks[i - 1], events[i - 1], disks[i]);
    }
  }

  ghost predicate All<T>(disk: Disk<T>, holds: T -> bool) {
    forall content <- disk.possible :: holds(content)
  }

  lemma EventKeepsAll(before: Disk<Record>, event: Event, after: Disk<Record>, holds: Record -> bool)
    requires Kept(before) && Next(before, event, after) && All(before, holds)
    requires event.Does? ==> holds(Transacted(before.file, event.step).0)
    ensures All(after, holds)
  {
    if event.Does? {
      OperationWrites(before, event.step);
    }
  }

  /** What each operation keeps of the file it finds, every record that a loss of power may leave keeps. */
  lemma {:induction false} AllThroughout(
      disks: seq<Disk<Record>>, events: seq<Event>, holds: Record -> bool, i: nat, j: nat)
    requires IsRun(disks, events) && i <= j < |disks| && All(disks[i], holds)
    requires forall k | i <= k < j && events[k].Does? && holds(disks[k].file) ::
               holds(Transacted(disks[k].file, events[k].step).0)
    ensures All(disks[j], holds) && holds(disks[j].file)
  {
    RunKeeps(disks, events, j);
    if i < j {
      AllThroughout(disks, events, holds, i, j - 1);
      assert Next(disks[j - 1], events[j - 1], disks[j]);
      RunKeeps(disks, events, j - 1);
      EventKeepsAll(disks[j - 1], events[j - 1], disks[j], holds);
    }
  }

  function AnswerOf(data: Record, step: Step): Result<Outcome, StateError> {
    Transacted(data, step).1
  }

  /** The clock of a step fits, if its update succeeds. */
  predicate StepFits(data: Record, step: Step) {
    Apply(data, step.op).Success? ==> ClockFits(data, step.op)
  }

  // ---- Valid records, never back ----

  function Rank(state: AuthState): nat {
    if state.Uninitialized? then 0 else if state.EnrollmentRequired? then 1 else 2
  }

  /** A valid record stays valid, and loses neither its place on the ladder nor its generation. */
  predicate NoWorse(data: Record, next: Record) {
    StateOf(data).Success? ==>
      && StateOf(next).Success? && Rank(StateOf(data).value) <= Rank(StateOf(next).value)
      && (HasFactors(data) ==> HasFactors(next) && data.generation.value <= next.generation.value)
  }

  lemma NoWorseChains(data: Record, next: Record, last: Record)
    requires NoWorse(data, next) && NoWorse(next, last)
    ensures NoWorse(data, last)
  {
  }

  predicate ClocksFit(disks: seq<Disk<Record>>, events: seq<Event>, i: nat, j: nat)
    requires |disks| == |events| + 1 && i <= j < |disks|
  {
    forall k | i <= k < j && events[k].Does? :: StepFits(disks[k].file, events[k].step)
  }

  lemma NoWorseThroughout(disks: seq<Disk<Record>>, events: seq<Event>, i: nat, j: nat, base: Record)
    requires IsRun(disks, events) && i <= j < |disks| && ClocksFit(disks, events, i, j)
    requires All(disks[i], record => NoWorse(base, record))
    ensures All(disks[j], record => NoWorse(base, record))
  {
    forall k | i <= k < j && events[k].Does? && NoWorse(base, disks[k].file)
      ensures NoWorse(base, Transacted(disks[k].file, events[k].step).0)
    {
      TransactionStaysValid(disks[k].file, events[k].step);
      NoWorseChains(base, disks[k].file, Transacted(disks[k].file, events[k].step).0);
    }
    AllThroughout(disks, events, record => NoWorse(base, record), i, j);
  }

  /**
  While clocks fit, every record of a run that a loss of power may leave is valid, and none is a step back from one that
  was durable.
  */
  lemma RunStaysValid(disks: seq<Disk<Record>>, events: seq<Event>, i: nat, j: nat)
    requires IsRun(disks, events) && i <= j < |disks| && ClocksFit(disks, events, i, j)
    requires All(disks[i], record => StateOf(record).Success?)
    ensures All(disks[j], record => StateOf(record).Success?)
    ensures IsDurable(disks[i]) ==> All(disks[j], record => NoWorse(disks[i].file, record))
  {
    forall k | i <= k < j && events[k].Does? && StateOf(disks[k].file).Success?
      ensures StateOf(Transacted(disks[k].file, events[k].step).0).Success?
    {
      TransactionStaysValid(disks[k].file, events[k].step);
    }
    AllThroughout(disks, events, record => StateOf(record).Success?, i, j);
    if IsDurable(disks[i]) {
      NoWorseThroughout(disks, events, i, j, disks[i].file);
    }
  }

  lemma TransactionStaysValid(data: Record, step: Step)
    requires StepFits(data, step)
    ensures NoWorse(data, Transacted(data, step).0)
  {
    if StateOf(data).Success? && Apply(data, step.op).Success? {
      UpdateStaysValid(data, step.op);
    }
  }

  lemma UpdateStaysValid(data: Record, op: Op)
    requires StateOf(data).Success? && Apply(data, op).Success? && ClockFits(data, op)
    ensures NoWorse(data, Apply(data, op).value.0)
  {
    ApplyKeepsValid(data, op);
    LadderRises(data, op);
    if HasFactors(data) {
      GenerationCountsFactorChanges(data, op);
    }
  }

  lemma LadderRises(data: Record, op: Op)
    requires StateOf(data).Success? && Apply(data, op).Success?
    ensures Rank(StateOf(data).value) <= Rank(After(StateOf(data).value, op, Apply(data, op).value.1))
  {
  }

  /** A change that was never confirmed shows, answers nothing, and may be gone after a loss of power. */
  lemma UnconfirmedChangeMayBeUndone(data: Record, op: Op)
    requires Apply(data, op).Success? && Writes(op, Apply(data, op).value.1)
    ensures var step, changed := Step(op, Unconfirmed), Apply(data, op).value.0;
      var disks := [Lasting(data), Renamed(Lasting(data), changed), Lasting(data)];
      IsRun(disks, [Does(step), PowerLoss(data)]) && AnswerOf(data, step) == Failure(Io)
  {
  }

  // ---- Tickets of an earlier generation ----

  /** The record of a password names a generation. */
  predicate HasGeneration(data: Record) {
    data.password.Present? && data.generation.Present?
  }

  /** Whatever the clock, no transaction lowers the generation. */
  lemma GenerationNeverFalls(data: Record, step: Step)
    requires HasGeneration(data)
    ensures HasGeneration(Transacted(data, step).0)
    ensures data.generation.value <= Transacted(data, step).0.generation.value
  {
    if StateOf(data).Success? && Apply(data, step.op).Success? {
      GenerationCountsFactorChanges(data, step.op);
      PasswordStays(data, step.op);
    }
  }

  lemma PasswordStays(data: Record, op: Op)
    requires HasFactors(data) && Apply(data, op).Success?
    ensures Apply(data, op).value.0.password == data.password
  {
  }

  lemma StaleTransaction(data: Record, step: Step)
    requires HasGeneration(data) && IsStale(data, step.op)
    ensures Transacted(data, step).0 == data
    ensures AnswerOf(data, step).Success? ==> AnswerOf(data, step).value == Attempted(Changed)
  {
    if StateOf(data).Success? {
      StaleChangesNothing(data, step.op);
    }
  }

  predicate GenerationAtLeast(data: Record, generation: int) {
    HasGeneration(data) && data.generation.value >= generation
  }

  /** Whatever happens, once every record a loss of power may leave has a generation, all later ones do. */
  lemma GenerationStays(disks: seq<Disk<Record>>, events: seq<Event>, i: nat, j: nat, generation: int)
    requires IsRun(disks, events) && i <= j < |disks|
    requires All(disks[i], record => GenerationAtLeast(record, generation))
    ensures GenerationAtLeast(disks[j].file, generation)
  {
    forall k | i <= k < j && events[k].Does? && GenerationAtLeast(disks[k].file, generation)
      ensures GenerationAtLeast(Transacted(disks[k].file, events[k].step).0, generation)
    {
      GenerationNeverFalls(disks[k].file, events[k].step);
    }
    AllThroughout(disks, events, record => GenerationAtLeast(record, generation), i, j);
  }

  lemma StaleLeavesFile(disk: Disk<Record>, step: Step)
    requires Kept(disk) && HasGeneration(disk.file) && IsStale(disk.file, step.op)
    ensures DiskAfter(disk, step).file == disk.file && DiskAfter(disk, step).possible <= disk.possible
    ensures AnswerOf(disk.file, step).Success? ==> AnswerOf(disk.file, step).value == Attempted(Changed)
  {
    StaleTransaction(disk.file, step);
    OperationWrites(disk, step);
  }

  /**
  Once every record that a loss of power may leave passed a ticket's generation, no operation with that ticket ever
  changes the record again: no factor, counter or secret, whatever happens in between and at any clock.
  */
  lemma NoStaleTicketEverChanges(disks: seq<Disk<Record>>, events: seq<Event>, i: nat, j: nat, ticket: int)
    requires IsRun(disks, events) && i <= j < |events|
    requires All(disks[i], record => GenerationAtLeast(record, ticket + 1))
    requires events[j].Does? && TicketGeneration(events[j].step.op) == Some(ticket)
    ensures disks[j + 1].file == disks[j].file && disks[j + 1].possible <= disks[j].possible
    ensures var answer := AnswerOf(disks[j].file, events[j].step);
      answer.Success? ==> answer.value == Attempted(Changed)
  {
    GenerationStays(disks, events, i, j, ticket + 1);
    RunKeeps(disks, events, j);
    StaleLeavesFile(disks[j], events[j].step);
    assert Next(disks[j], events[j], disks[j + 1]);
  }

  /** An operation that answered with a change of the factors. */
  predicate AnswersChange(data: Record, step: Step) {
    AnswerOf(data, step).Success? && ChangesFactors(step.op, AnswerOf(data, step).value)
  }

  lemma AnsweredChangeCounts(disk: Disk<Record>, step: Step)
    requires HasFactors(disk.file) && AnswersChange(disk.file, step)
    ensures All(DiskAfter(disk, step), record => GenerationAtLeast(record, disk.file.generation.value + 1))
  {
    GenerationCountsFactorChanges(disk.file, step.op);
    PasswordStays(disk.file, step.op);
  }

  /** Once a change of the factors was answered, every ticket issued before it is spent, even across a loss of power. */
  lemma AnsweredChangeOutdatesTickets(disks: seq<Disk<Record>>, events: seq<Event>, i: nat, j: nat, ticket: int)
    requires IsRun(disks, events) && i < j < |events|
    requires HasFactors(disks[i].file) && events[i].Does? && AnswersChange(disks[i].file, events[i].step)
    requires events[j].Does? && TicketGeneration(events[j].step.op) == Some(ticket)
    requires ticket <= disks[i].file.generation.value
    ensures disks[j + 1].file == disks[j].file && disks[j + 1].possible <= disks[j].possible
  {
    AnsweredChangeCounts(disks[i], events[i].step);
    assert Next(disks[i], events[i], disks[i + 1]);
    NoStaleTicketEverChanges(disks, events, i + 1, j, ticket);
  }

  // ---- No TOTP code twice ----

  predicate IsActive(data: Record) {
    data.totp.Present? && data.totp.value.status.Active?
  }

  /** The last accepted step, which an active factor keeps. */
  predicate Reached(data: Record, step: int) {
    IsActive(data) && data.totp.value.lastAcceptedStep.Some? && data.totp.value.lastAcceptedStep.value >= step
  }

  predicate AcceptsTotp(data: Record, step: Step) {
    step.op.Verifies? && AnswerOf(data, step) == Success(Attempted(Accepted))
  }

  lemma AcceptedReaches(data: Record, step: Step)
    requires AcceptsTotp(data, step)
    ensures step.op.matched.Some? && Reached(Transacted(data, step).0, step.op.matched.value)
    ensures forall reached :: Reached(data, reached) ==> reached < step.op.matched.value
  {
    AcceptedStepsRise(data.totp.value, step.op.matched, step.op.now);
    VerifyActivates(data.totp.value, step.op.matched, step.op.now);
  }

  lemma ReachedStays(data: Record, step: Step, reached: int)
    requires Reached(data, reached) && IsActive(Transacted(data, step).0)
    ensures Reached(Transacted(data, step).0, reached)
  {
    if step.op.Verifies? && StateOf(data).Success? && HasFactors(data) {
      AcceptedStepsRise(data.totp.value, step.op.matched, step.op.now);
    }
  }

  lemma ReachedThroughout(disks: seq<Disk<Record>>, events: seq<Event>, i: nat, j: nat, reached: int)
    requires IsRun(disks, events) && i <= j < |disks| && All(disks[i], record => Reached(record, reached))
    requires forall k | i <= k <= j :: IsActive(disks[k].file)
    ensures Reached(disks[j].file, reached)
  {
    forall k | i <= k < j && events[k].Does? && Reached(disks[k].file, reached)
      ensures Reached(Transacted(disks[k].file, events[k].step).0, reached)
    {
      RunKeeps(disks, events, k);
      OperationWrites(disks[k], events[k].step);
      assert Next(disks[k], events[k], disks[k + 1]) && IsActive(disks[k + 1].file);
      ReachedStays(disks[k].file, events[k].step, reached);
    }
    AllThroughout(disks, events, record => Reached(record, reached), i, j);
  }

  /** An accepted attempt is confirmed, so no loss of power takes it back. */
  lemma AcceptedLasts(disk: Disk<Record>, step: Step)
    requires AnswerOf(disk.file, step) == Success(Attempted(Accepted))
    ensures DiskAfter(disk, step) == Lasting(Transacted(disk.file, step).0)
  {
  }

  /**
  While one factor stays active, each accepted code is of a later period than every one before it, even across a loss of
  power.
  */
  lemma NoTotpCodeIsAcceptedTwice(disks: seq<Disk<Record>>, events: seq<Event>, i: nat, j: nat)
    requires IsRun(disks, events) && i < j < |events| && events[i].Does? && events[j].Does?
    requires AcceptsTotp(disks[i].file, events[i].step) && AcceptsTotp(disks[j].file, events[j].step)
    requires forall k | i < k <= j :: IsActive(disks[k].file)
    ensures events[i].step.op.matched.Some? && events[j].step.op.matched.Some?
    ensures events[i].step.op.matched.value < events[j].step.op.matched.value
  {
    AcceptedReaches(disks[i].file, events[i].step);
    AcceptedLasts(disks[i], events[i].step);
    assert Next(disks[i], events[i], disks[i + 1]);
    ReachedThroughout(disks, events, i + 1, j, events[i].step.op.matched.value);
    AcceptedReaches(disks[j].file, events[j].step);
  }

  // ---- No recovery code twice ----

  predicate AcceptsRecovery(data: Record, step: Step) {
    step.op.Spends? && AnswerOf(data, step) == Success(Attempted(Accepted))
  }

  /** No code of this digest is left unused. */
  predicate UsedUp(data: Record, digest: string) {
    data.codes.Present? ==> forall code <- data.codes.value.codes :: code.digest == digest ==> code.usedAt.Some?
  }

  /** Whether an operation may bring in another recovery set. */
  predicate BringsCodes(op: Op) {
    op.Replaces? || (op.Verifies? && Enrolls(op.ceremony))
  }

  lemma AcceptedUsesUp(data: Record, step: Step)
    requires AcceptsRecovery(data, step)
    ensures step.op.candidate.digest.Some? && !UsedUp(data, step.op.candidate.digest.value)
    ensures UsedUp(Transacted(data, step).0, step.op.candidate.digest.value)
  {
    var codes := data.codes.value.codes;
    var place := Unused(codes, step.op.candidate.digest);
    ValuesCount(Digests(codes));
    assert codes[place - 1] in codes;
    forall k | 0 <= k < |codes| && k != place - 1 ensures codes[k].digest != codes[place - 1].digest {
      assert Digests(codes)[k] != Digests(codes)[place - 1];
    }
    assert Transacted(data, step).0.codes.value.codes
           == codes[place - 1 := codes[place - 1].(usedAt := Some(step.op.now))];
  }

  lemma UsedUpStays(data: Record, step: Step, digest: string)
    requires UsedUp(data, digest) && !BringsCodes(step.op)
    ensures UsedUp(Transacted(data, step).0, digest)
  {
    if Apply(data, step.op).Success? {
      if AcceptsRecoveryUpdate(data, step.op) {
        SpendingKeepsUsedUp(data, step.op, digest);
      } else {
        CodesStay(data, step.op);
      }
    }
  }

  lemma SpendingKeepsUsedUp(data: Record, op: Op, digest: string)
    requires AcceptsRecoveryUpdate(data, op) && UsedUp(data, digest)
    ensures UsedUp(Apply(data, op).value.0, digest)
  {
    var codes := data.codes.value.codes;
    var place := Unused(codes, op.candidate.digest);
    var spent := codes[place - 1 := codes[place - 1].(usedAt := Some(op.now))];
    forall k | 0 <= k < |spent| && spent[k].digest == digest ensures spent[k].usedAt.Some? {
      assert codes[k] in codes;
    }
  }

  /** An operation that neither spends a code nor brings a recovery set in leaves the set, or a record without one. */
  lemma CodesStay(data: Record, op: Op)
    requires Apply(data, op).Success? && !AcceptsRecoveryUpdate(data, op) && !BringsCodes(op)
    ensures Apply(data, op).value.0.codes == data.codes || !Apply(data, op).value.0.codes.Present?
  {
  }

  predicate AcceptsRecoveryUpdate(data: Record, op: Op) {
    op.Spends? && Apply(data, op).Success? && Apply(data, op).value.1 == Attempted(Accepted)
  }

  predicate BringsNoCodes(events: seq<Event>, i: nat, j: nat)
    requires i <= j <= |events|
  {
    forall k | i <= k < j && events[k].Does? :: !BringsCodes(events[k].step.op)
  }

  lemma UsedUpThroughout(disks: seq<Disk<Record>>, events: seq<Event>, i: nat, j: nat, digest: string)
    requires IsRun(disks, events) && i <= j < |disks| && All(disks[i], record => UsedUp(record, digest))
    requires BringsNoCodes(events, i, j)
    ensures UsedUp(disks[j].file, digest)
  {
    forall k | i <= k < j && events[k].Does? && UsedUp(disks[k].file, digest)
      ensures UsedUp(Transacted(disks[k].file, events[k].step).0, digest)
    {
      UsedUpStays(disks[k].file, events[k].step, digest);
    }
    AllThroughout(disks, events, record => UsedUp(record, digest), i, j);
  }

  /** Until another recovery set is brought in, no two accepted codes are the same, even across a loss of power. */
  lemma NoRecoveryCodeIsSpentTwice(disks: seq<Disk<Record>>, events: seq<Event>, i: nat, j: nat)
    requires IsRun(disks, events) && i < j < |events| && events[i].Does? && events[j].Does?
    requires AcceptsRecovery(disks[i].file, events[i].step) && AcceptsRecovery(disks[j].file, events[j].step)
    requires BringsNoCodes(events, i + 1, j)
    ensures events[i].step.op.candidate.digest != events[j].step.op.candidate.digest
  {
    AcceptedUsesUp(disks[i].file, events[i].step);
    AcceptedLasts(disks[i], events[i].step);
    assert Next(disks[i], events[i], disks[i + 1]);
    UsedUpThroughout(disks, events, i + 1, j, events[i].step.op.candidate.digest.value);
    AcceptedUsesUp(disks[j].file, events[j].step);
  }
}
