/**
One bounded worker lane, each atomic action one step: permits taken and dropped, the state word's compare-exchange, the
result cell's write, the cancellation notice. Any number of cancellations of a job may run beside its task.
*/
module Lanes {
  import opened Wrappers

  datatype Word = Pending | Running | Cancelled

  /** How a job ended: with its operation's result, cancelled before it started, or by a panic. */
  datatype Ended = Done(value: int) | WasCancelled | Panicked

  /** Where a job's task is; from `Holding` on it holds a worker permit, until it returned an admission. */
  datatype Task =
    | Waiting
    | Holding
    | Operating
    | Finishing(ended: Ended)
    | Refusing
    | Leaving
    | Returned

  /** Where one `cancel` call is: its exchange won or lost, its result written, its notice given and answered. */
  datatype Cancel = Won | Written | Lost | Answered(cancelled: bool)

  datatype Job = Job(word: Word, task: Task, result: Option<Ended>, notified: bool, cancels: seq<Cancel>)

  const FRESH := Job(Pending, Waiting, None, false, [])

  datatype Lane = Lane(workers: nat, admissions: nat, jobs: seq<Job>)

  /** The worker permits of a new lane: one at least. */
  function Workers(workers: nat): nat {
    if workers < 1 then 1 else workers
  }

  /** Its admissions: one for each worker at least. */
  function Admissions(workers: nat, outstanding: nat): nat {
    var least := Workers(workers);
    if outstanding < least then least else outstanding
  }

  function NewLane(workers: nat, outstanding: nat): Lane {
    Lane(Workers(workers), Admissions(workers, outstanding), [])
  }

  datatype Step =
    | Submit
    | AcquireWorker(job: nat)
    | HearCancel(job: nat)               // the task waiting for a worker hears the notice and returns
    | Start(job: nat)                    // the exchange that lets the operation run, or not
    | Finish(job: nat, ended: Ended)     // the operation ends or panics
    | Publish(job: nat)                  // the task writes the result
    | Leave(job: nat)                    // the task returns its permits
    | CallCancel(job: nat)
    | WriteCancel(job: nat, call: nat)
    | Notify(job: nat, call: nat)
    | AnswerCancel(job: nat, call: nat)

  predicate Enabled(s: Lane, step: Step) {
    if step.Submit? then true
    else if step.job >= |s.jobs| then false
    else
      var job := s.jobs[step.job];
      match step
      case AcquireWorker(_) => job.task.Waiting? && s.workers > 0
      case HearCancel(_) => job.task.Waiting? && job.notified
      case Start(_) => job.task.Holding?
      case Finish(_, ended) => job.task.Operating? && !ended.WasCancelled?
      case Publish(_) => job.task.Finishing? || job.task.Refusing?
      case Leave(_) => job.task.Leaving?
      case CallCancel(_) => true
      case WriteCancel(_, call) => call < |job.cancels| && job.cancels[call].Won?
      case Notify(_, call) => call < |job.cancels| && job.cancels[call].Written?
      case AnswerCancel(_, call) => call < |job.cancels| && job.cancels[call].Lost?
  }

  /** The job after a step of its task or of one of its cancellations. */
  function AfterJob(job: Job, step: Step): Job
    requires !step.Submit?
    requires step.WriteCancel? || step.Notify? || step.AnswerCancel? ==> step.call < |job.cancels|
  {
    match step
    case AcquireWorker(_) => job.(task := Holding)
    case HearCancel(_) => job.(task := Returned)
    case Start(_) => if job.word.Pending? then job.(word := Running, task := Operating) else job.(task := Refusing)
    case Finish(_, ended) => job.(task := Finishing(ended))
    case Publish(_) =>
      job.(result := Some(if job.task.Finishing? then job.task.ended else WasCancelled), task := Leaving)
    case Leave(_) => job.(task := Returned)
    case CallCancel(_) =>
      if job.word.Pending? then job.(word := Cancelled, cancels := job.cancels + [Won])
      else job.(cancels := job.cancels + [Lost])
    case WriteCancel(_, call) => job.(result := Some(WasCancelled), cancels := job.cancels[call := Written])
    case Notify(_, call) => job.(notified := true, cancels := job.cancels[call := Answered(true)])
    case AnswerCancel(_, call) => job.(cancels := job.cancels[call := Answered(job.word.Cancelled?)])
  }

  /** A full lane refuses a job at once: submitting to it changes nothing. */
  function After(s: Lane, step: Step): Lane
    requires Enabled(s, step)
  {
    if step.Submit? then
      if s.admissions == 0 then s else s.(admissions := s.admissions - 1, jobs := s.jobs + [FRESH])
    else
      var jobs := s.jobs[step.job := AfterJob(s.jobs[step.job], step)];
      match step
      case AcquireWorker(_) => s.(workers := s.workers - 1, jobs := jobs)
      case HearCancel(_) => s.(admissions := s.admissions + 1, jobs := jobs)
      case Leave(_) => s.(workers := s.workers + 1, admissions := s.admissions + 1, jobs := jobs)
      case _ => s.(jobs := jobs)
  }

  ghost predicate IsRun(states: seq<Lane>, steps: seq<Step>, workers: nat, outstanding: nat) {
    && |states| == |steps| + 1
    && states[0] == NewLane(workers, outstanding)
    && forall i | 0 <= i < |steps| :: Enabled(states[i], steps[i]) && states[i + 1] == After(states[i], steps[i])
  }

  // ---- Permits ----

  predicate HoldsWorker(job: Job) {
    !job.task.Waiting? && !job.task.Returned?
  }

  function Working(jobs: seq<Job>): nat {
    if jobs == [] then 0 else (if HoldsWorker(jobs[0]) then 1 else 0) + Working(jobs[1..])
  }

  function Admitted(jobs: seq<Job>): nat {
    if jobs == [] then 0 else (if jobs[0].task.Returned? then 0 else 1) + Admitted(jobs[1..])
  }

  lemma {:induction false} CountsUpdate(jobs: seq<Job>, i: nat, job: Job)
    requires i < |jobs|
    ensures Working(jobs[i := job]) + (if HoldsWorker(jobs[i]) then 1 else 0) ==
            Working(jobs) + (if HoldsWorker(job) then 1 else 0)
    ensures Admitted(jobs[i := job]) + (if jobs[i].task.Returned? then 0 else 1) ==
            Admitted(jobs) + (if job.task.Returned? then 0 else 1)
  {
    if i > 0 {
      assert jobs[i := job][1..] == jobs[1..][i - 1 := job];
      CountsUpdate(jobs[1..], i - 1, job);
    }
  }

  lemma {:induction false} CountsAppend(jobs: seq<Job>, job: Job)
    ensures Working(jobs + [job]) == Working(jobs) + (if HoldsWorker(job) then 1 else 0)
    ensures Admitted(jobs + [job]) == Admitted(jobs) + (if job.task.Returned? then 0 else 1)
  {
    if jobs != [] {
      assert (jobs + [job])[1..] == jobs[1..] + [job];
      CountsAppend(jobs[1..], job);
    }
  }

  /** Every permit is free or held by exactly one task. */
  predicate PermitsConserved(s: Lane, workers: nat, outstanding: nat) {
    && s.workers + Working(s.jobs) == Workers(workers)
    && s.admissions + Admitted(s.jobs) == Admissions(workers, outstanding)
  }

  lemma StepConservesPermits(s: Lane, step: Step, workers: nat, outstanding: nat)
    requires PermitsConserved(s, workers, outstanding) && Enabled(s, step)
    ensures PermitsConserved(After(s, step), workers, outstanding)
  {
    if step.Submit? {
      CountsAppend(s.jobs, FRESH);
    } else {
      CountsUpdate(s.jobs, step.job, AfterJob(s.jobs[step.job], step));
    }
  }

  // ---- One job's word, result and cancellations ----

  /** The operation runs or ran. */
  predicate Ran(job: Job) {
    job.word.Running?
  }

  /** What a job's word, task, result and cancellations always agree on. */
  predicate Agrees(job: Job) {
    && (job.task.Waiting? || job.task.Holding? ==> !job.word.Running?)
    && (job.task.Operating? || job.task.Finishing? ==> job.word.Running? && job.result.None?)
    && (job.task.Finishing? ==> !job.task.ended.WasCancelled?)
    && (job.task.Refusing? ==> job.word.Cancelled?)
    && (job.task.Leaving? || job.task.Returned? ==> !job.word.Pending? && job.result.Some?)
    && (job.result.Some? ==> (job.result.value.WasCancelled? <==> job.word.Cancelled?) && !job.word.Pending?)
    && (job.notified ==> job.result == Some(WasCancelled))
    && (forall i | 0 <= i < |job.cancels| :: CancelAgrees(job, job.cancels[i]))
  }

  predicate CancelAgrees(job: Job, cancel: Cancel) {
    match cancel
    case Won => job.word.Cancelled?
    case Written => job.result == Some(WasCancelled)
    case Lost => !job.word.Pending?
    case Answered(cancelled) => if cancelled then job.word.Cancelled? else job.word.Running?
  }

  lemma JobStepKeeps(s: Lane, step: Step)
    requires Enabled(s, step) && !step.Submit? && Agrees(s.jobs[step.job])
    ensures var before, after := s.jobs[step.job], AfterJob(s.jobs[step.job], step);
      && Agrees(after)
      && (before.result.Some? ==> after.result == before.result)
      && (!before.word.Pending? ==> after.word == before.word)
      && |before.cancels| <= |after.cancels|
      && (forall i | 0 <= i < |before.cancels| && before.cancels[i].Answered? :: after.cancels[i] == before.cancels[i])
  {
  }

  predicate Inv(s: Lane, workers: nat, outstanding: nat) {
    PermitsConserved(s, workers, outstanding) && forall i | 0 <= i < |s.jobs| :: Agrees(s.jobs[i])
  }

  lemma StepKeepsInv(s: Lane, step: Step, workers: nat, outstanding: nat)
    requires Inv(s, workers, outstanding) && Enabled(s, step)
    ensures Inv(After(s, step), workers, outstanding)
  {
    StepConservesPermits(s, step, workers, outstanding);
    if !step.Submit? {
      JobStepKeeps(s, step);
    }
  }

  lemma {:induction false} RunKeepsInv(states: seq<Lane>, steps: seq<Step>, workers: nat, outstanding: nat, n: nat)
    requires IsRun(states, steps, workers, outstanding) && n < |states|
    ensures Inv(states[n], workers, outstanding)
  {
    if n > 0 {
      RunKeepsInv(states, steps, workers, outstanding, n - 1);
      StepKeepsInv(states[n - 1], steps[n - 1], workers, outstanding);
    }
  }

  // ---- The guarantees ----

  function OperatingCount(jobs: seq<Job>): nat {
    if jobs == [] then 0 else (if jobs[0].task.Operating? then 1 else 0) + OperatingCount(jobs[1..])
  }

  lemma {:induction false} OperatingHolds(jobs: seq<Job>)
    ensures OperatingCount(jobs) <= Working(jobs) <= Admitted(jobs)
  {
    if jobs != [] {
      OperatingHolds(jobs[1..]);
    }
  }

  /** In every run, operations never outnumber the workers, nor jobs held the admissions. */
  lemma LaneIsBounded(states: seq<Lane>, steps: seq<Step>, workers: nat, outstanding: nat, n: nat)
    requires IsRun(states, steps, workers, outstanding) && n < |states|
    ensures OperatingCount(states[n].jobs) <= Workers(workers)
    ensures Admitted(states[n].jobs) <= Admissions(workers, outstanding)
  {
    RunKeepsInv(states, steps, workers, outstanding, n);
    OperatingHolds(states[n].jobs);
  }

  lemma {:induction false} NoneLeft(jobs: seq<Job>)
    requires forall i | 0 <= i < |jobs| :: jobs[i].task.Returned?
    ensures Working(jobs) == 0 && Admitted(jobs) == 0
  {
    if jobs != [] {
      NoneLeft(jobs[1..]);
    }
  }

  /** Once every task returned, every permit is back, and every job has its result. */
  lemma AllPermitsReturn(states: seq<Lane>, steps: seq<Step>, workers: nat, outstanding: nat, n: nat)
    requires IsRun(states, steps, workers, outstanding) && n < |states|
    requires forall i | 0 <= i < |states[n].jobs| :: states[n].jobs[i].task.Returned?
    ensures states[n].workers == Workers(workers) && states[n].admissions == Admissions(workers, outstanding)
    ensures forall i | 0 <= i < |states[n].jobs| :: states[n].jobs[i].result.Some?
  {
    RunKeepsInv(states, steps, workers, outstanding, n);
    NoneLeft(states[n].jobs);
  }

  /** Whatever a job's result, word and answered cancellations are once decided, they stay. */
  lemma {:induction false} DecidedStays(states: seq<Lane>, steps: seq<Step>, workers: nat, outstanding: nat,
                                        m: nat, n: nat, i: nat)
    requires IsRun(states, steps, workers, outstanding) && m <= n < |states| && i < |states[m].jobs|
    ensures i < |states[n].jobs|
    ensures var before, after := states[m].jobs[i], states[n].jobs[i];
      && (before.result.Some? ==> after.result == before.result)
      && (!before.word.Pending? ==> after.word == before.word)
  {
    if m < n {
      DecidedStays(states, steps, workers, outstanding, m, n - 1, i);
      RunKeepsInv(states, steps, workers, outstanding, n - 1);
      var s, step := states[n - 1], steps[n - 1];
      if !step.Submit? && step.job == i {
        JobStepKeeps(s, step);
      }
    }
  }

  /**
  A cancellation answers true exactly when the job's operation never runs: not so far and in no later state; answered
  false, the operation has already started.
  */
  lemma CancelAnswersExactly(states: seq<Lane>, steps: seq<Step>, workers: nat, outstanding: nat,
                             m: nat, n: nat, i: nat, call: nat)
    requires IsRun(states, steps, workers, outstanding) && m <= n < |states| && i < |states[m].jobs|
    requires call < |states[m].jobs[i].cancels| && states[m].jobs[i].cancels[call].Answered?
    ensures i < |states[n].jobs|
    ensures states[m].jobs[i].cancels[call] == Answered(true) ==>
              !Ran(states[n].jobs[i]) && states[n].jobs[i].result in {None, Some(WasCancelled)}
    ensures states[m].jobs[i].cancels[call] == Answered(false) ==>
              Ran(states[m].jobs[i]) && states[n].jobs[i].result != Some(WasCancelled)
  {
    RunKeepsInv(states, steps, workers, outstanding, m);
    RunKeepsInv(states, steps, workers, outstanding, n);
    DecidedStays(states, steps, workers, outstanding, m, n, i);
  }

  // ---- Operations run, and end as they ended ----

  /** What a job is after a step that is its own, or not. */
  lemma JobAfter(s: Lane, step: Step, i: nat)
    requires Enabled(s, step) && i < |s.jobs|
    ensures i < |After(s, step).jobs|
    ensures After(s, step).jobs[i] == if step.Submit? || step.job != i then s.jobs[i] else AfterJob(s.jobs[i], step)
  {
  }

  /** A job is cancelled, in its word or its result, only by a call for it that found it pending. */
  lemma {:induction false} CancelledByACall(states: seq<Lane>, steps: seq<Step>, workers: nat, outstanding: nat,
                                            n: nat, i: nat)
    requires IsRun(states, steps, workers, outstanding) && n < |states| && i < |states[n].jobs|
    requires states[n].jobs[i].word.Cancelled? || states[n].jobs[i].result == Some(WasCancelled)
    ensures exists m | 0 <= m < n ::
              steps[m] == CallCancel(i) && i < |states[m].jobs| && states[m].jobs[i].word.Pending?
  {
    RunKeepsInv(states, steps, workers, outstanding, n);
    assert Agrees(states[n].jobs[i]);
    var s, step := states[n - 1], steps[n - 1];
    if i < |s.jobs| {
      JobAfter(s, step, i);
      if s.jobs[i].word.Cancelled? {
        CancelledByACall(states, steps, workers, outstanding, n - 1, i);
      }
    }
  }

  /** While no cancellation was called for, a job's word is pending until its operation starts. */
  lemma {:induction false} PendingUntilCalled(states: seq<Lane>, steps: seq<Step>, workers: nat, outstanding: nat,
                                              n: nat, i: nat)
    requires IsRun(states, steps, workers, outstanding) && n < |states| && i < |states[n].jobs|
    requires states[n].jobs[i].task.Waiting? || states[n].jobs[i].task.Holding?
    ensures states[n].jobs[i].word.Pending? <==>
            !exists m | 0 <= m < n :: steps[m] == CallCancel(i) && i < |states[m].jobs|
  {
    RunKeepsInv(states, steps, workers, outstanding, n);
    assert Agrees(states[n].jobs[i]);
    if n > 0 && i < |states[n - 1].jobs| {
      JobAfter(states[n - 1], steps[n - 1], i);
      PendingUntilCalled(states, steps, workers, outstanding, n - 1, i);
    }
    if n > 0 && i >= |states[n - 1].jobs| {
      forall m | 0 <= m < n ensures i >= |states[m].jobs| {
        JobsGrow(states, steps, workers, outstanding, m, n - 1);
      }
    }
  }

  lemma {:induction false} JobsGrow(states: seq<Lane>, steps: seq<Step>, workers: nat, outstanding: nat, m: nat, n: nat)
    requires IsRun(states, steps, workers, outstanding) && m <= n < |states|
    ensures |states[m].jobs| <= |states[n].jobs|
  {
    if m < n {
      JobsGrow(states, steps, workers, outstanding, m, n - 1);
    }
  }

  /** Once its task reaches the start, the operation runs exactly when no cancellation of it was called for before. */
  lemma StartRunsUnlessCancelled(states: seq<Lane>, steps: seq<Step>, workers: nat, outstanding: nat, n: nat, i: nat)
    requires IsRun(states, steps, workers, outstanding) && n < |steps| && steps[n] == Start(i)
    ensures i < |states[n + 1].jobs|
    ensures states[n + 1].jobs[i].task.Operating? <==>
            !exists m | 0 <= m < n :: steps[m] == CallCancel(i) && i < |states[m].jobs|
  {
    PendingUntilCalled(states, steps, workers, outstanding, n, i);
    JobAfter(states[n], steps[n], i);
  }

  /** A result other than a cancellation is what the job's own operation ended with. */
  lemma {:induction false} ResultIsItsOperations(states: seq<Lane>, steps: seq<Step>, workers: nat, outstanding: nat,
                                                 n: nat, i: nat, ended: Ended)
    requires IsRun(states, steps, workers, outstanding) && n < |states| && i < |states[n].jobs|
    requires !ended.WasCancelled?
    requires states[n].jobs[i].result == Some(ended) || states[n].jobs[i].task == Finishing(ended)
    ensures exists m | 0 <= m < n :: steps[m] == Finish(i, ended)
  {
    var s, step := states[n - 1], steps[n - 1];
    if i < |s.jobs| {
      JobAfter(s, step, i);
      if s.jobs[i].result == Some(ended) || s.jobs[i].task == Finishing(ended) {
        ResultIsItsOperations(states, steps, workers, outstanding, n - 1, i, ended);
      }
    }
  }

  /** What an operation ended with is its job's result once the task published it, and for good. */
  lemma {:induction false} FinishedIsPublished(states: seq<Lane>, steps: seq<Step>, workers: nat, outstanding: nat,
                                               m: nat, n: nat, i: nat, ended: Ended)
    requires IsRun(states, steps, workers, outstanding) && m < n < |states| && steps[m] == Finish(i, ended)
    ensures i < |states[n].jobs|
    ensures states[n].jobs[i].task == Finishing(ended)
            || (states[n].jobs[i].result == Some(ended)
                && (states[n].jobs[i].task.Leaving? || states[n].jobs[i].task.Returned?))
  {
    RunKeepsInv(states, steps, workers, outstanding, n - 1);
    var s, step := states[n - 1], steps[n - 1];
    if m < n - 1 {
      FinishedIsPublished(states, steps, workers, outstanding, m, n - 1, i, ended);
    }
    JobAfter(s, step, i);
    assert Agrees(s.jobs[i]);
  }

  // ---- The lane goes on ----

  lemma {:induction false} NoneWorks(jobs: seq<Job>)
    requires forall i | 0 <= i < |jobs| :: !HoldsWorker(jobs[i])
    ensures Working(jobs) == 0
  {
    if jobs != [] {
      NoneWorks(jobs[1..]);
    }
  }

  /** What a task does next, whatever cancellations do. */
  predicate IsTaskStep(step: Step) {
    step.AcquireWorker? || step.Start? || step.Finish? || step.Publish? || step.Leave?
  }

  /** While a job's task has not returned, some task can go on: permits never run out for good. */
  lemma LaneGoesOn(states: seq<Lane>, steps: seq<Step>, workers: nat, outstanding: nat, n: nat, i: nat)
    requires IsRun(states, steps, workers, outstanding) && n < |states| && i < |states[n].jobs|
    requires !states[n].jobs[i].task.Returned?
    ensures exists step :: IsTaskStep(step) && Enabled(states[n], step)
  {
    RunKeepsInv(states, steps, workers, outstanding, n);
    var s := states[n];
    if k :| 0 <= k < |s.jobs| && HoldsWorker(s.jobs[k]) {
      var task := s.jobs[k].task;
      var step := if task.Holding? then Start(k) else if task.Operating? then Finish(k, Panicked)
                  else if task.Leaving? then Leave(k) else Publish(k);
      assert IsTaskStep(step) && Enabled(s, step);
    } else {
      NoneWorks(s.jobs);
      assert IsTaskStep(AcquireWorker(i)) && Enabled(s, AcquireWorker(i));
    }
  }

  /** A job cancelled while it waits gives its admission back at once, without ever taking a worker. */
  lemma CancelledGivesBack(s: Lane, i: nat)
    requires i < |s.jobs| && s.jobs[i].task.Waiting? && s.jobs[i].notified
    ensures Enabled(s, HearCancel(i))
    ensures var next := After(s, HearCancel(i));
      next.jobs[i].task.Returned? && next.admissions == s.admissions + 1 && next.workers == s.workers
  {
  }

  /** A lane has one worker and one admission at least, and otherwise as many as it was asked to have. */
  lemma LaneIsAsAsked(workers: nat, outstanding: nat)
    ensures var lane := NewLane(workers, outstanding);
      && lane.workers >= 1 && lane.admissions >= lane.workers && lane.jobs == []
      && (workers >= 1 ==> lane.workers == workers)
      && (outstanding >= workers >= 1 ==> lane.admissions == outstanding)
  {
  }

  /** A lane refuses a job only while every admission is taken, so a fresh lane admits its first. */
  lemma RefusesOnlyWhenFull(states: seq<Lane>, steps: seq<Step>, workers: nat, outstanding: nat, n: nat)
    requires IsRun(states, steps, workers, outstanding) && n < |steps| && steps[n].Submit?
    ensures |states[n + 1].jobs| == |states[n].jobs| <==>
            Admitted(states[n].jobs) == Admissions(workers, outstanding)
    ensures n == 0 ==> |states[1].jobs| == 1
  {
    RunKeepsInv(states, steps, workers, outstanding, n);
  }
}
