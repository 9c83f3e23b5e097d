/**
The life of the Supervisor's record in the store: factor operations one transaction at a time, and the sessions each of
them ends. An operation edits a private copy of the record, so what it computes is a function of it.
*/
module Supervisor {
  import opened Classify
  import opened Disks
  import opened FactorLaws
  import opened FactorRuns
  import opened Factors
  import opened Store
  import Sessions
  import opened Totp
  import opened Wrappers

  /** Whether an operation's transaction reaches the file, answered or not. */
  predicate ReachesFile(before: Record, step: Step) {
    var updated := Apply(before, step.op);
    updated.Success? && Writes(step.op, updated.value.1) && step.commit in {Unconfirmed, Persisted}
  }

  /** Whether it reaches the file with another set of factors. */
  predicate BringsFactors(before: Record, step: Step) {
    ReachesFile(before, step) && ChangesFactors(step.op, Apply(before, step.op).value.1)
  }

  /** Whether it ends every session: it is answered, and its outcome leaves another session secret. */
  predicate EndsSessions(before: Record, step: Step) {
    && ReachesFile(before, step) && step.commit.Persisted?
    && Rotates(step.op, Apply(before, step.op).value.1) && before.sessionSecret != Present(NewSecret(step.op))
  }

  /** A valid record stays valid exactly when the operation does not reach the file or its clock fits. */
  predicate KeepsValid(before: Record, step: Step, after: Record) {
    && (!ReachesFile(before, step) ==> after == before)
    && (StateOf(before).Success? ==>
          (StateOf(after).Success? <==> !ReachesFile(before, step) || ClockFits(before, step.op)))
  }

  /** The generation rises by one exactly when the factors change. */
  predicate CountsChanges(before: Record, step: Step, after: Record) {
    HasFactors(before) ==>
      after.generation == Present(before.generation.value + if BringsFactors(before, step) then 1 else 0)
  }

  /** A stale ticket changes nothing, and is told so or refused. */
  predicate RefusesStale(before: Record, step: Step, after: Record, answer: Result<Outcome, StateError>) {
    HasFactors(before) && IsStale(before, step.op) ==>
      after == before && (answer.Success? ==> answer.value == Attempted(Changed))
  }

  /** What one transaction means. */
  predicate Lawful(before: Record, step: Step, after: Record, answer: Result<Outcome, StateError>) {
    KeepsValid(before, step, after) && CountsChanges(before, step, after) && RefusesStale(before, step, after, answer)
  }

  lemma TransactionKeepsValid(before: Record, step: Step)
    ensures KeepsValid(before, step, Transacted(before, step).0)
  {
    if StateOf(before).Success? && Apply(before, step.op).Success? {
      ApplyKeepsValid(before, step.op);
    }
  }

  lemma TransactionCountsChanges(before: Record, step: Step)
    ensures CountsChanges(before, step, Transacted(before, step).0)
  {
    if HasFactors(before) && Apply(before, step.op).Success? {
      GenerationCountsFactorChanges(before, step.op);
    }
  }

  lemma TransactionRefusesStale(before: Record, step: Step)
    ensures RefusesStale(before, step, Transacted(before, step).0, AnswerOf(before, step))
  {
    if HasFactors(before) && IsStale(before, step.op) {
      StaleChangesNothing(before, step.op);
    }
  }

  /** Sessions must end exactly when a success leaves another session secret. */
  lemma SecretTellsEnd(before: Record, step: Step)
    requires HasFactors(before)
    ensures EndsSessions(before, step) <==>
            AnswerOf(before, step).Success? && Transacted(before, step).0.sessionSecret != before.sessionSecret
  {
    if Apply(before, step.op).Success? {
      GenerationCountsFactorChanges(before, step.op);
    }
  }

  lemma TransactionIsLawful(before: Record, step: Step)
    ensures Lawful(before, step, Transacted(before, step).0, AnswerOf(before, step))
    ensures HasFactors(before) ==>
      (EndsSessions(before, step) <==>
         AnswerOf(before, step).Success? && Transacted(before, step).0.sessionSecret != before.sessionSecret)
  {
    TransactionKeepsValid(before, step);
    TransactionCountsChanges(before, step);
    TransactionRefusesStale(before, step);
    if HasFactors(before) {
      SecretTellsEnd(before, step);
    }
  }

  /**
  A logout whose file was replaced but not confirmed leaves the new session secret in the record and fails, so no
  session ends.
  */
  lemma UnconfirmedLogoutEndsNoSession(data: Record, newSecret: nat)
    requires StateOf(data) == Success(Configured) && data.sessionSecret != Present(newSecret)
    ensures var step := Step(LogsOut(true, newSecret), Unconfirmed);
      && Transacted(data, step).0 == data.(sessionSecret := Present(newSecret))
      && AnswerOf(data, step) == Failure(Io) && !EndsSessions(data, step)
  {
  }

  lemma LivesOn(disks: seq<Disk<Record>>, events: seq<Event>, step: Step)
    requires IsRun(disks, events)
    ensures var disk := DiskAfter(disks[|events|], step);
      && IsRun(disks + [disk], events + [Does(step)])
      && disk.file == Transacted(disks[|events|].file, step).0
  {
    RunKeeps(disks, events, |events|);
    OperationWrites(disks[|events|], step);
  }

  class Supervisor {
    const sessions: Sessions.Sessions
    var record: Record
    // What the disk held, and every operation, since the start.
    ghost var disks: seq<Disk<Record>>
    ghost var events: seq<Event>

    /** The record's whole life is a run of transactions, so whatever holds over runs holds of it. */
    ghost predicate Valid()
      reads this, sessions
    {
      sessions.Valid() && IsRun(disks, events) && record == disks[|events|].file
    }

    constructor (disk: Disk<Record>, sessions: Sessions.Sessions)
      requires sessions.Valid() && Kept(disk)
      ensures Valid() && record == disk.file && disks == [disk] && events == [] && this.sessions == sessions
    {
      this.sessions, record, disks, events := sessions, disk.file, [disk], [];
    }

    /** The journal, then the file. */
    method Persist(step: Step) returns (answer: Result<Outcome, StateError>)
      modifies this`record
      ensures (record, answer) == Transacted(old(record), step)
    {
      var updated := Apply(record, step.op);
      if updated.Failure? {
        return Failure(updated.error);
      }
      var (data, outcome) := updated.value;
      if !Writes(step.op, outcome) {
        return Success(outcome);
      }
      if step.commit.JournalRefuses? {
        return Failure(Audit);
      }
      if step.commit.NotReplaced? {
        return Failure(Io);
      }
      record := data;
      return if step.commit.Unconfirmed? then Failure(Io) else Success(outcome);
    }

    /** One operation; every tracked session ends at once when it rotates the secret. */
    method Transaction(step: Step) returns (answer: Result<Outcome, StateError>)
      requires Valid()
      modifies this, sessions
      ensures Valid() && old(disks) <= disks && events == old(events) + [Does(step)]
      ensures answer == AnswerOf(old(record), step)
      ensures Lawful(old(record), step, record, answer)
      ensures sessions.log ==
              Heard(old(sessions.log), answer.Success? && record.sessionSecret != old(record).sessionSecret)
      ensures HasFactors(old(record)) ==> sessions.log == Heard(old(sessions.log), EndsSessions(old(record), step))
    {
      LivesOn(disks, events, step);
      TransactionIsLawful(record, step);
      ghost var before := record;
      var secret := record.sessionSecret;
      answer := Persist(step);
      if answer.Success? && record.sessionSecret != secret {
        sessions.EndAll();
      }
      disks, events := disks + [DiskAfter(disks[|events|], step)], events + [Does(step)];
    }
  }

  /** What listeners heard once every tracked session ended, if it did. */
  function Heard(log: seq<Sessions.Event>, ended: bool): seq<Sessions.Event> {
    if ended then log + [Sessions.Ended(Sessions.Tracked(log))] else log
  }
}
