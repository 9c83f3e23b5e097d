/**
The rotation as a protocol: the person's rotations, the background retry, Team, the network, restarts and losses of
power, each one step at a time. A settlement holds the rotation lock, so at most one runs; saving a new key takes only
the store's own lock and may fall between any two of its steps.
*/
module RotationProtocol {
  import opened Disks
  import opened Wrappers
  import opened Store
  import opened SupervisorKey

  /** How far the settlement holding the rotation lock is. */
  datatype Phase =
    | Loading
    | Loaded(pending: Key)
    | Ready(current: Key, pending: Key)
    | Asked(current: Key, pending: Key, again: bool, heard: Option<Reply>)
    | Answered(current: Key, pending: Key, again: bool, reply: Reply)
    | Decided(current: Key, pending: Key, adopt: bool)

  /** Admin's file with its record, Team's pin, the settlement under way, and the requests on their way to Team. */
  datatype System = System(disk: Disk<Record>, pin: Key, resolver: Option<Phase>, flight: multiset<Request>)

  predicate Initial(s: System) {
    && IsDurable(s.disk) && s.pin == s.disk.file.signingKey && s.disk.file.pendingKey.None?
    && s.resolver.None? && s.flight == multiset{}
  }

  function Signer(phase: Phase): Key
    requires phase.Asked?
  {
    if phase.again then phase.pending else phase.current
  }

  datatype Step =
    | Begin(identity: LocalIdentity, commit: Commit)            // a rotation saves its new key
    | Enter                                                     // a settlement takes the lock
    | LoadPending
    | LoadCurrent
    | Send
    | Deliver(request: Request, pinAfter: Key, reply: Reply)    // Team handles one request
    | Drop(request: Request)                                    // the network loses one
    | Hear(lost: bool)                                          // the ask returns Team's answer, or a 502
    | Fail                                                      // the ask returns no answer at all
    | Decide
    | Settle(commit: Commit)
    | Sync                                                      // what the file shows becomes durable
    | Crash                                                     // Admin restarts: only its file stays
    | PowerLoss(kept: Record)                                   // so does its machine: the file may be an earlier one

  /**
  Whether an ask, or Admin itself, may end while one of its requests is still on its way to Team. The source's calls are
  assumed not to (`late` false); `late` true is the machine without that assumption.
  */
  predicate MayEnd(s: System, late: bool) {
    late || s.flight == multiset{}
  }

  ghost predicate Enabled(s: System, step: Step, late: bool) {
    match step
    case Begin(_, _) => true
    case Enter => s.resolver.None?
    case LoadPending => s.resolver == Some(Loading)
    case LoadCurrent => s.resolver.Some? && s.resolver.value.Loaded?
    case Send => s.resolver.Some? && s.resolver.value.Ready?
    case Deliver(request, pinAfter, reply) => request in s.flight && TeamRules(s.pin, request, pinAfter, reply)
    case Drop(request) => request in s.flight
    case Hear(lost) =>
      && s.resolver.Some? && s.resolver.value.Asked? && MayEnd(s, late)
      && (lost || s.resolver.value.heard.Some?)
    case Fail => s.resolver.Some? && s.resolver.value.Asked? && MayEnd(s, late)
    case Decide => s.resolver.Some? && s.resolver.value.Answered?
    case Settle(_) => s.resolver.Some? && s.resolver.value.Decided?
    case Sync => true
    case Crash => MayEnd(s, late)
    case PowerLoss(kept) => kept in s.disk.possible && MayEnd(s, late)
  }

  ghost function After(s: System, step: Step, late: bool): System
    requires Enabled(s, step, late)
  {
    match step
    case Begin(identity, commit) =>
      s.(disk := Committed(s.disk, BeginUpdate(s.disk.file, identity), true, commit).0)
    case Enter => s.(resolver := Some(Loading))
    case LoadPending =>
      var pending := PendingKey(s.disk.file);
      s.(resolver := if pending.Success? && pending.value.Some? then Some(Loaded(pending.value.value)) else None)
    case LoadCurrent => s.(resolver := Some(Ready(s.disk.file.signingKey, s.resolver.value.pending)))
    case Send =>
      var Ready(current, pending) := s.resolver.value;
      s.(resolver := Some(Asked(current, pending, false, None)),
         flight := s.flight + multiset{Request(current, pending)})
    case Deliver(request, pinAfter, reply) =>
      s.(pin := pinAfter, flight := s.flight - multiset{request}, resolver := Hearing(s.resolver, request, reply))
    case Drop(request) => s.(flight := s.flight - multiset{request})
    case Hear(lost) =>
      var Asked(current, pending, again, heard) := s.resolver.value;
      var reply := if lost then Reply(502, None) else heard.value;
      s.(resolver := Some(Answered(current, pending, again, reply)))
    case Fail => s.(resolver := None)
    case Decide =>
      var Answered(current, pending, again, reply) := s.resolver.value;
      if !again && AsksAgain(reply, pending) then
        s.(resolver := Some(Asked(current, pending, true, None)),
           flight := s.flight + multiset{Request(pending, pending)})
      else
        var decided := Switched(reply, pending);
        s.(resolver := if decided.None? then None else Some(Decided(current, pending, decided.value)))
    case Settle(commit) =>
      var Decided(_, pending, adopt) := s.resolver.value;
      s.(disk := Committed(s.disk, SettleUpdate(s.disk.file, pending, adopt), true, commit).0, resolver := None)
    case Sync => s.(disk := Synced(s.disk))
    case Crash => s.(resolver := None)
    case PowerLoss(kept) => s.(disk := Lasting(kept), resolver := None)
  }

  /** Team's answer reaches the ask that waits for it, if one does. */
  function Hearing(resolver: Option<Phase>, request: Request, reply: Reply): Option<Phase> {
    if resolver.Some? && resolver.value.Asked? && resolver.value.heard.None? &&
       request == Request(Signer(resolver.value), resolver.value.pending)
    then Some(resolver.value.(heard := Some(reply)))
    else resolver
  }

  ghost predicate IsPath(states: seq<System>, steps: seq<Step>, late: bool) {
    && |states| == |steps| + 1
    && forall i | 0 <= i < |steps| ::
         Enabled(states[i], steps[i], late) && states[i + 1] == After(states[i], steps[i], late)
  }

  /** A run of the protocol: its states and the step between each two. */
  ghost predicate IsRun(states: seq<System>, steps: seq<Step>, late: bool) {
    IsPath(states, steps, late) && Initial(states[0])
  }

  // ---- What the settlement knows ----

  /** The key that an answer, once heard, makes the settlement take Team to pin. */
  function Concluded(current: Key, pending: Key, again: bool, reply: Reply): Option<Key> {
    match Switched(reply, pending)
    case None => None
    case Some(true) => Some(pending)
    case Some(false) => if !again && AsksAgain(reply, pending) then None else Some(current)
  }

  function Believed(resolver: Option<Phase>): Option<Key> {
    match resolver
    case Some(Asked(current, pending, again, Some(reply))) => Concluded(current, pending, again, reply)
    case Some(Answered(current, pending, again, reply)) => Concluded(current, pending, again, reply)
    case Some(Decided(current, pending, adopt)) => Some(if adopt then pending else current)
    case _ => None
  }

  /** The settlement's own copies are the record's. */
  predicate Copies(s: System) {
    match s.resolver
    case None => true
    case Some(Loading) => true
    case Some(Loaded(pending)) => s.disk.file.pendingKey == Some(pending)
    case Some(Ready(current, pending)) => Holds(s.disk.file, current, pending)
    case Some(Asked(current, pending, _, _)) => Holds(s.disk.file, current, pending)
    case Some(Answered(current, pending, _, _)) => Holds(s.disk.file, current, pending)
    case Some(Decided(current, pending, _)) => Holds(s.disk.file, current, pending)
  }

  predicate Holds(record: Record, current: Key, pending: Key) {
    record.signingKey == current && record.pendingKey == Some(pending)
  }

  /** The file shown saves Team's pin, and what the settlement copied and concluded is true. */
  predicate Inv(s: System) {
    && Pinned(s.disk.file, s.pin)
    && Copies(s)
    && (Believed(s.resolver).Some? ==> Believed(s.resolver).value == s.pin)
  }

  /** Team switches to the key a request names. */
  predicate Switches(s: System, step: Step) {
    step.Deliver? && step.pinAfter != s.pin
  }

  /** Team switches only to a key that the file shows, and before the settlement took it to pin one. */
  predicate Expected(s: System, step: Step) {
    Switches(s, step) ==> Saves(s.disk.file, step.pinAfter) && Believed(s.resolver).None?
  }

  /** A loss of power leaves a record that saves Team's pin. */
  predicate LeavesPin(s: System, step: Step) {
    step.PowerLoss? ==> Pinned(step.kept, s.pin)
  }

  /** What an own answer concludes is true of the pin it leaves. */
  lemma OwnAnswerIsTrue(s: System, step: Step, late: bool)
    requires Inv(s) && Enabled(s, step, late) && step.Deliver? && s.resolver.Some?
    requires s.resolver.value.Asked? && step.request == Request(Signer(s.resolver.value), s.resolver.value.pending)
    ensures var Asked(current, pending, again, _) := s.resolver.value;
      var concluded := Concluded(current, pending, again, step.reply);
      concluded.Some? ==> concluded.value == step.pinAfter
  {
    var Asked(current, pending, again, _) := s.resolver.value;
    AnswerDecides(s.pin, current, pending, step.request.signer, step.pinAfter, step.reply);
  }

  /** A step keeps the shown file's pin and the settlement's knowledge if and only if it is an expected one. */
  lemma StepKeepsInv(s: System, step: Step, late: bool)
    requires Inv(s) && Enabled(s, step, late) && LeavesPin(s, step)
    ensures Inv(After(s, step, late)) <==> Expected(s, step)
  {
    if step.Deliver? {
      DeliveryKeepsInv(s, step, late);
    } else {
      OtherStepKeepsInv(s, step, late);
    }
  }

  lemma DeliveryKeepsInv(s: System, step: Step, late: bool)
    requires Inv(s) && Enabled(s, step, late) && step.Deliver?
    ensures Inv(After(s, step, late)) <==> Expected(s, step)
  {
    if s.resolver.Some? && s.resolver.value.Asked?
       && step.request == Request(Signer(s.resolver.value), s.resolver.value.pending) {
      OwnAnswerIsTrue(s, step, late);
    }
  }

  lemma OtherStepKeepsInv(s: System, step: Step, late: bool)
    requires Inv(s) && Enabled(s, step, late) && LeavesPin(s, step) && !step.Deliver?
    ensures Inv(After(s, step, late))
  {
    if step.Begin? || step.Settle? {
      WriteKeepsInv(s, step, late);
    }
  }

  lemma WriteKeepsInv(s: System, step: Step, late: bool)
    requires Inv(s) && Enabled(s, step, late) && (step.Begin? || step.Settle?)
    ensures Inv(After(s, step, late))
  {
  }

  // ---- What a loss of power may leave ----

  /** Every record a loss of power may leave saves Team's pin. */
  predicate AllPinned(s: System) {
    forall record <- s.disk.possible :: Pinned(record, s.pin)
  }

  /** While a key pends that is not durable, power may still take it away. */
  predicate MayUndo(s: System) {
    && Kept(s.disk)
    && (IsDurable(s.disk) || s.disk.file.pendingKey.None? || s.disk.file.(pendingKey := None) in s.disk.possible)
  }

  lemma StepKeepsMayUndo(s: System, step: Step, late: bool)
    requires MayUndo(s) && Enabled(s, step, late)
    ensures MayUndo(After(s, step, late))
  {
    if step.Begin? && BeginUpdate(s.disk.file, step.identity).Success? {
      assert s.disk.file.(pendingKey := None) == s.disk.file;
    }
  }

  predicate Safe(s: System) {
    Inv(s) && AllPinned(s) && MayUndo(s)
  }

  /** Team switches only to a key saved durably, and as expected. */
  predicate Harmless(s: System, step: Step) {
    Expected(s, step) && (Switches(s, step) ==> IsDurable(s.disk))
  }

  /** Were the key Team switches to not durable, a loss of power could leave a record without it. */
  lemma SwitchNeedsDurable(s: System, step: Step, late: bool)
    requires Safe(s) && Enabled(s, step, late) && Switches(s, step)
    ensures AllPinned(After(s, step, late)) ==> IsDurable(s.disk)
  {
    if !IsDurable(s.disk) {
      var undone := s.disk.file.(pendingKey := None);
      assert s.disk.file.pendingKey.None? ==> undone == s.disk.file;
      assert Pinned(undone, s.pin) && !Pinned(undone, step.pinAfter);
    }
  }

  lemma HarmlessKeepsAllPinned(s: System, step: Step, late: bool)
    requires Safe(s) && Enabled(s, step, late) && Harmless(s, step)
    ensures AllPinned(After(s, step, late))
  {
    StepKeepsInv(s, step, late);
  }

  /** A step keeps everything safe, whatever a loss of power may leave, if and only if it is harmless. */
  lemma StepIsSafeExactly(s: System, step: Step, late: bool)
    requires Safe(s) && Enabled(s, step, late)
    ensures Safe(After(s, step, late)) <==> Harmless(s, step)
  {
    StepKeepsInv(s, step, late);
    StepKeepsMayUndo(s, step, late);
    if Harmless(s, step) {
      HarmlessKeepsAllPinned(s, step, late);
    } else if Switches(s, step) {
      SwitchNeedsDurable(s, step, late);
    }
  }

  lemma {:induction false} HarmlessRunIsSafe(states: seq<System>, steps: seq<Step>, late: bool, n: nat)
    requires IsRun(states, steps, late) && n < |states|
    requires forall m | 0 <= m < n :: Harmless(states[m], steps[m])
    ensures Safe(states[n])
  {
    if n > 0 {
      HarmlessRunIsSafe(states, steps, late, n - 1);
      StepIsSafeExactly(states[n - 1], steps[n - 1], late);
    }
  }

  /** A run is safe in every state, late requests or not, if and only if every delivery of it is harmless. */
  lemma RunIsSafeExactly(states: seq<System>, steps: seq<Step>, late: bool)
    requires IsRun(states, steps, late)
    ensures (forall n | 0 <= n < |states| :: Safe(states[n])) <==>
            (forall m | 0 <= m < |steps| :: Harmless(states[m], steps[m]))
  {
    if forall m | 0 <= m < |steps| :: Harmless(states[m], steps[m]) {
      forall n | 0 <= n < |states| ensures Safe(states[n]) {
        HarmlessRunIsSafe(states, steps, late, n);
      }
    }
    if forall n | 0 <= n < |states| :: Safe(states[n]) {
      forall m | 0 <= m < |steps| ensures Harmless(states[m], steps[m]) {
        assert Safe(states[m]) && Safe(states[m + 1]);
        StepIsSafeExactly(states[m], steps[m], late);
      }
    }
  }

  // ---- Requests that are over when their ask returns ----

  /** Nothing is on its way but the request the settlement waits for. */
  predicate InTime(s: System) {
    if s.resolver.Some? && s.resolver.value.Asked? && s.resolver.value.heard.None?
    then s.flight <= multiset{Request(Signer(s.resolver.value), s.resolver.value.pending)}
    else s.flight == multiset{}
  }

  lemma StepKeepsInTime(s: System, step: Step)
    requires InTime(s) && Enabled(s, step, false)
    ensures InTime(After(s, step, false))
  {
    if step.Deliver? {
      assert s.flight - multiset{step.request} == multiset{};
    }
  }

  lemma {:induction false} RunIsInTime(states: seq<System>, steps: seq<Step>, n: nat)
    requires IsRun(states, steps, false) && n < |states|
    ensures InTime(states[n]) && MayUndo(states[n])
  {
    if n > 0 {
      RunIsInTime(states, steps, n - 1);
      StepKeepsInTime(states[n - 1], steps[n - 1]);
      StepKeepsMayUndo(states[n - 1], steps[n - 1], false);
    }
  }

  /** A request in time is expected. */
  lemma InTimeIsExpected(s: System, step: Step)
    requires Inv(s) && InTime(s) && Enabled(s, step, false)
    ensures Expected(s, step)
  {
  }

  predicate LeavePin(states: seq<System>, steps: seq<Step>, n: nat)
    requires |states| == |steps| + 1 && n <= |steps|
  {
    forall m | 0 <= m < n :: LeavesPin(states[m], steps[m])
  }

  lemma {:induction false} RunKeepsInv(states: seq<System>, steps: seq<Step>, n: nat)
    requires IsRun(states, steps, false) && n < |states| && LeavePin(states, steps, n)
    ensures Inv(states[n])
  {
    if n > 0 {
      RunKeepsInv(states, steps, n - 1);
      RunIsInTime(states, steps, n - 1);
      InTimeIsExpected(states[n - 1], steps[n - 1]);
      assert LeavesPin(states[n - 1], steps[n - 1]);
      StepKeepsInv(states[n - 1], steps[n - 1], false);
    }
  }

  // ---- The guarantees ----

  /**
  Whatever answers are lost, Admin crashes and retries fall in between: every record that the file shows, or that a loss
  of power may leave, saves Team's pin in every state of a run if and only if Team never switches to a key that is not
  yet durable.
  */
  lemma NoRunDropsThePinnedKey(states: seq<System>, steps: seq<Step>)
    requires IsRun(states, steps, false)
    ensures (forall n | 0 <= n < |states| :: AllPinned(states[n])) <==>
            (forall m | 0 <= m < |steps| :: Switches(states[m], steps[m]) ==> IsDurable(states[m].disk))
  {
    if forall n | 0 <= n < |states| :: AllPinned(states[n]) {
      forall m | 0 <= m < |steps| && Switches(states[m], steps[m]) ensures IsDurable(states[m].disk) {
        PinnedRunIsSafe(states, steps, m);
        assert AllPinned(states[m + 1]);
        SwitchNeedsDurable(states[m], steps[m], false);
      }
    }
    if forall m | 0 <= m < |steps| :: Switches(states[m], steps[m]) ==> IsDurable(states[m].disk) {
      forall n | 0 <= n < |states| ensures AllPinned(states[n]) {
        DurableSwitchesAreSafe(states, steps, n);
      }
    }
  }

  lemma PinnedRunIsSafe(states: seq<System>, steps: seq<Step>, n: nat)
    requires IsRun(states, steps, false) && n < |states|
    requires forall m | 0 <= m <= n :: AllPinned(states[m])
    ensures Safe(states[n])
  {
    forall m | 0 <= m < n ensures LeavesPin(states[m], steps[m]) {
      assert AllPinned(states[m]);
    }
    RunKeepsInv(states, steps, n);
    RunIsInTime(states, steps, n);
  }

  lemma {:induction false} DurableSwitchesAreSafe(states: seq<System>, steps: seq<Step>, n: nat)
    requires IsRun(states, steps, false) && n < |states|
    requires forall m | 0 <= m < n :: Switches(states[m], steps[m]) ==> IsDurable(states[m].disk)
    ensures Safe(states[n])
  {
    if n > 0 {
      DurableSwitchesAreSafe(states, steps, n - 1);
      RunIsInTime(states, steps, n - 1);
      InTimeIsExpected(states[n - 1], steps[n - 1]);
      StepIsSafeExactly(states[n - 1], steps[n - 1], false);
    }
  }

  /** Until power is lost, the file shown saves Team's pin whether or not it is durable. */
  lemma ShownFileSavesThePin(states: seq<System>, steps: seq<Step>, n: nat)
    requires IsRun(states, steps, false) && n < |states| && forall m | 0 <= m < n :: !steps[m].PowerLoss?
    ensures Pinned(states[n].disk.file, states[n].pin)
  {
    RunKeepsInv(states, steps, n);
  }

  /** While a key pends, the file is durable. */
  predicate PendsDurably(s: System) {
    s.disk.file.pendingKey.Some? ==> IsDurable(s.disk)
  }

  lemma {:induction false} RunPendsDurably(states: seq<System>, steps: seq<Step>, n: nat)
    requires IsRun(states, steps, false) && n < |states|
    requires forall m | 0 <= m < n && steps[m].Begin? :: !steps[m].commit.Unconfirmed?
    ensures PendsDurably(states[n])
  {
    if n > 0 {
      RunPendsDurably(states, steps, n - 1);
    }
  }

  /** When each key is saved durably first, no loss of power drops the pinned key, even one amid a settlement. */
  lemma {:induction false} DurableBeginsKeepThePin(states: seq<System>, steps: seq<Step>, n: nat)
    requires IsRun(states, steps, false) && n < |states|
    requires forall m | 0 <= m < n && steps[m].Begin? :: !steps[m].commit.Unconfirmed?
    ensures Safe(states[n])
  {
    if n > 0 {
      DurableBeginsKeepThePin(states, steps, n - 1);
      RunPendsDurably(states, steps, n - 1);
      RunIsInTime(states, steps, n - 1);
      InTimeIsExpected(states[n - 1], steps[n - 1]);
      StepIsSafeExactly(states[n - 1], steps[n - 1], false);
    }
  }

  /**
  A settlement that changes the record leaves exactly one key, and it is the one Team pins: the pending key when it is
  adopted, the earlier one when it is dropped.
  */
  lemma SettlementIsExact(states: seq<System>, steps: seq<Step>, n: nat)
    requires IsRun(states, steps, false) && n < |steps| && steps[n].Settle? && LeavePin(states, steps, n)
    ensures states[n].resolver.Some? && states[n].resolver.value.Decided? && states[n + 1].pin == states[n].pin
    ensures var before, after := states[n].disk.file, states[n + 1].disk.file;
      && before.pendingKey == Some(states[n].resolver.value.pending)
      && (steps[n].commit in {Unconfirmed, Persisted} ==>
            && after.pendingKey.None?
            && after.signingKey == states[n + 1].pin
            && states[n + 1].pin ==
               if states[n].resolver.value.adopt then before.pendingKey.value else before.signingKey)
      && (steps[n].commit !in {Unconfirmed, Persisted} ==> states[n + 1].disk == states[n].disk)
  {
    RunKeepsInv(states, steps, n);
  }

  /** Whether a step may take a key from the file. */
  predicate MayDrop(step: Step) {
    step.PowerLoss? || (step.Settle? && step.commit in {Unconfirmed, Persisted})
  }

  /** Through retries, restarts and other begins an open rotation stays, until a settlement or a loss of power. */
  lemma {:induction false} OnlySettlementsDropAKey(
      states: seq<System>, steps: seq<Step>, late: bool, i: nat, j: nat)
    requires IsRun(states, steps, late) && i <= j < |states| && states[i].disk.file.pendingKey.Some?
    requires forall k | i <= k < j :: !MayDrop(steps[k])
    ensures states[j].disk.file == states[i].disk.file
    ensures states[j].disk ==
            if exists k :: i <= k < j && steps[k].Sync? then Synced(states[i].disk) else states[i].disk
  {
    if i < j {
      OnlySettlementsDropAKey(states, steps, late, i, j - 1);
    }
  }

  // ---- An open rotation completes ----

  ghost predicate PathTo(path: (seq<System>, seq<Step>), first: System, last: System) {
    IsPath(path.0, path.1, false) && path.0[0] == first && path.0[|path.0| - 1] == last
  }

  lemma Onward(path: (seq<System>, seq<Step>), first: System, last: System, step: Step, next: System)
    returns (longer: (seq<System>, seq<Step>))
    requires PathTo(path, first, last) && Enabled(last, step, false) && next == After(last, step, false)
    ensures PathTo(longer, first, next)
  {
    longer := (path.0 + [next], path.1 + [step]);
  }

  /** A settlement that took the lock asks under the current key. */
  lemma AsksFirst(s: System, current: Key, pending: Key) returns (path: (seq<System>, seq<Step>), last: System)
    requires Holds(s.disk.file, current, pending) && current != pending && s.resolver.None? && s.flight == multiset{}
    ensures last == s.(resolver := Some(Asked(current, pending, false, None)),
                       flight := multiset{Request(current, pending)})
    ensures PathTo(path, s, last)
  {
    path := ([s], []);
    var s1 := s.(resolver := Some(Loading));
    path := Onward(path, s, s, Enter, s1);
    var s2 := s.(resolver := Some(Loaded(pending)));
    path := Onward(path, s, s1, LoadPending, s2);
    var s3 := s.(resolver := Some(Ready(current, pending)));
    path := Onward(path, s, s2, LoadCurrent, s3);
    last := s.(resolver := Some(Asked(current, pending, false, None)), flight := multiset{Request(current, pending)});
    assert multiset{} + multiset{Request(current, pending)} == multiset{Request(current, pending)};
    path := Onward(path, s, s3, Send, last);
  }

  /** Team that pins the earlier key refuses nothing; one that switched already refuses it, and is asked again. */
  lemma AsksAgainOnceSwitched(path: (seq<System>, seq<Step>), first: System, s: System, current: Key, pending: Key)
    returns (longer: (seq<System>, seq<Step>), last: System)
    requires PathTo(path, first, s) && Holds(s.disk.file, current, pending) && current != pending && s.pin == pending
    requires s.resolver == Some(Asked(current, pending, false, None))
    requires s.flight == multiset{Request(current, pending)}
    ensures last == s.(resolver := Some(Asked(current, pending, true, None)),
                       flight := multiset{Request(pending, pending)})
    ensures PathTo(longer, first, last)
  {
    var ask, refusal := Request(current, pending), Reply(403, None);
    var s1 := s.(resolver := Some(Asked(current, pending, false, Some(refusal))), flight := multiset{});
    assert s.flight - multiset{ask} == multiset{};
    longer := Onward(path, first, s, Deliver(ask, pending, refusal), s1);
    var s2 := s1.(resolver := Some(Answered(current, pending, false, refusal)));
    longer := Onward(longer, first, s1, Hear(false), s2);
    last := s.(resolver := Some(Asked(current, pending, true, None)), flight := multiset{Request(pending, pending)});
    assert multiset{} + multiset{Request(pending, pending)} == multiset{Request(pending, pending)};
    longer := Onward(longer, first, s2, Decide, last);
  }

  /** Team confirms the key, and the settlement adopts it. */
  lemma Adopts(path: (seq<System>, seq<Step>), first: System, s: System, phase: Phase)
    returns (longer: (seq<System>, seq<Step>), last: System)
    requires PathTo(path, first, s) && s.resolver == Some(phase) && phase.Asked? && phase.heard.None?
    requires Holds(s.disk.file, phase.current, phase.pending) && s.pin == Signer(phase)
    requires s.flight == multiset{Request(Signer(phase), phase.pending)}
    ensures PathTo(longer, first, last) && last.resolver.None? && last.flight == multiset{}
    ensures last.pin == phase.pending
    ensures last.disk == Lasting(s.disk.file.(signingKey := phase.pending, pendingKey := None))
  {
    var Asked(current, pending, again, _) := phase;
    var ask, reply := Request(Signer(phase), pending), Reply(200, Some(pending));
    var s1 := s.(pin := pending, resolver := Some(phase.(heard := Some(reply))), flight := multiset{});
    assert s.flight - multiset{ask} == multiset{};
    longer := Onward(path, first, s, Deliver(ask, pending, reply), s1);
    var s2 := s1.(resolver := Some(Answered(current, pending, again, reply)));
    longer := Onward(longer, first, s1, Hear(false), s2);
    var s3 := s1.(resolver := Some(Decided(current, pending, true)));
    longer := Onward(longer, first, s2, Decide, s3);
    last := s3.(disk := Lasting(s.disk.file.(signingKey := pending, pendingKey := None)), resolver := None);
    longer := Onward(longer, first, s3, Settle(Persisted), last);
  }

  /** An open rotation can always be completed, by a Team that confirms: whether it switched before or not. */
  lemma OpenRotationCompletes(s: System) returns (path: (seq<System>, seq<Step>), last: System)
    requires Inv(s) && s.disk.file.pendingKey.Some? && s.resolver.None? && s.flight == multiset{}
    ensures PathTo(path, s, last)
    ensures last.pin == s.disk.file.pendingKey.value
    ensures last.disk == Lasting(s.disk.file.(signingKey := last.pin, pendingKey := None))
  {
    var current, pending := s.disk.file.signingKey, s.disk.file.pendingKey.value;
    var asked;
    path, asked := AsksFirst(s, current, pending);
    if s.pin == pending {
      path, asked := AsksAgainOnceSwitched(path, s, asked, current, pending);
    }
    path, last := Adopts(path, s, asked, asked.resolver.value);
  }

  // ---- A key Team switched to before it was durable ----

  ghost predicate RunTo(run: (seq<System>, seq<Step>), last: System, late: bool) {
    IsRun(run.0, run.1, late) && run.0[|run.0| - 1] == last
  }

  lemma Extended(run: (seq<System>, seq<Step>), last: System, step: Step, next: System, late: bool)
    returns (longer: (seq<System>, seq<Step>))
    requires RunTo(run, last, late) && Enabled(last, step, late) && next == After(last, step, late)
    ensures RunTo(longer, next, late)
  {
    longer := (run.0 + [next], run.1 + [step]);
  }

  /**
  A begin whose rename was not synced fails, but the next settlement finds the new key and asks Team, which switches;
  then a loss of power takes the key away, and the record left has no key that Team pins.
  */
  lemma UnsyncedKeyStrandsThePin() returns (run: (seq<System>, seq<Step>), last: System)
    ensures RunTo(run, last, false) && IsDurable(last.disk) && !Pinned(last.disk.file, last.pin)
  {
    var record, ask, reply := Record(Configured, "supervisor", 1, None), Request(1, 2), Reply(200, Some(2));
    var saved := record.(pendingKey := Some(2));
    var s := System(Lasting(record), 1, None, multiset{});
    run := ([s], []);
    var begun := s.(disk := Disk(saved, {record, saved}));
    assert Renamed(s.disk, saved) == begun.disk;
    run := Extended(run, s, Begin(LocalIdentity("supervisor", 2), Unconfirmed), begun, false);
    run := Asks(run, begun.disk, multiset{}, false);
    var asked := begun.(resolver := Some(Asked(1, 2, false, None)), flight := multiset{ask});
    var switched := begun.(pin := 2, resolver := Some(Asked(1, 2, false, Some(reply))));
    assert asked.flight - multiset{ask} == multiset{};
    run := Extended(run, asked, Deliver(ask, 2, reply), switched, false);
    last := s.(pin := 2);
    run := Extended(run, switched, PowerLoss(record), last, false);
  }

  // ---- Why a request must be over when its ask returns ----

  /** An unexpected delivery, late after its ask returned, strands the pin in the run it is part of. */
  lemma UnexpectedDeliveryStrands(s: System, step: Step) returns (states: seq<System>, steps: seq<Step>)
    requires Inv(s) && Enabled(s, step, true) && !Expected(s, step)
    ensures IsPath(states, steps, true) && steps != [] && states[0] == s && steps[0] == step
    ensures !Pinned(states[|steps|].disk.file, states[|steps|].pin)
  {
    var t := After(s, step, true);
    if Saves(s.disk.file, step.pinAfter) {
      states, steps := SettlesWrongly(t, Believed(s.resolver).value);
    } else {
      states, steps := [t], [];
    }
    states, steps := Prepended(s, step, states, steps);
  }

  lemma Prepended(s: System, step: Step, states: seq<System>, steps: seq<Step>)
    returns (longer: seq<System>, more: seq<Step>)
    requires Enabled(s, step, true) && IsPath(states, steps, true) && states[0] == After(s, step, true)
    ensures IsPath(longer, more, true) && longer == [s] + states && more == [step] + steps
  {
    longer, more := [s] + states, [step] + steps;
  }

  function Left(resolver: Option<Phase>): nat {
    if resolver.None? || resolver.value.Decided? then 0 else if resolver.value.Answered? then 1 else 2
  }

  /** A settlement that believes in another key than Team pins goes on to drop the pinned one. */
  lemma SettlesWrongly(s: System, key: Key) returns (states: seq<System>, steps: seq<Step>)
    requires Copies(s) && Believed(s.resolver) == Some(key) && s.pin != key
    ensures IsPath(states, steps, true) && states[0] == s
    ensures !Pinned(states[|steps|].disk.file, states[|steps|].pin)
    decreases Left(s.resolver)
  {
    var step := match s.resolver.value
      case Asked(_, _, _, _) => Hear(false)
      case Answered(_, _, _, _) => Decide
      case _ => Settle(Persisted);
    var t := After(s, step, true);
    if step.Settle? {
      states, steps := [t], [];
    } else {
      states, steps := SettlesWrongly(t, key);
    }
    states, steps := Prepended(s, step, states, steps);
  }

  /** An ask under the record's current key is on its way beside whatever already was. */
  lemma Asks(run: (seq<System>, seq<Step>), disk: Disk<Record>, flight: multiset<Request>, late: bool)
    returns (longer: (seq<System>, seq<Step>))
    requires disk.file.pendingKey.Some? && disk.file.pendingKey.value != disk.file.signingKey
    requires RunTo(run, System(disk, disk.file.signingKey, None, flight), late)
    ensures var (current, pending) := (disk.file.signingKey, disk.file.pendingKey.value);
      RunTo(longer, System(disk, current, Some(Asked(current, pending, false, None)),
                           flight + multiset{Request(current, pending)}), late)
  {
    var s := System(disk, disk.file.signingKey, None, flight);
    var pending := disk.file.pendingKey.value;
    var s1 := s.(resolver := Some(Loading));
    longer := Extended(run, s, Enter, s1, late);
    var s2 := s.(resolver := Some(Loaded(pending)));
    longer := Extended(longer, s1, LoadPending, s2, late);
    var s3 := s.(resolver := Some(Ready(s.disk.file.signingKey, pending)));
    longer := Extended(longer, s2, LoadCurrent, s3, late);
    longer := Extended(longer, s3, Send, After(s3, Send, late), late);
  }

  /** Team refuses the one request `refused`, and the resolver hears it. */
  lemma Hears(run: (seq<System>, seq<Step>), s: System, refused: Request, status: nat, left: multiset<Request>)
    returns (longer: (seq<System>, seq<Step>))
    requires RunTo(run, s, true) && s.disk.file.verdict.Configured? && s.pin == 1
    requires s.resolver == Some(Asked(1, 2, refused.signer == 2, None)) && refused.named == 2
    requires refused in s.flight && left == s.flight - multiset{refused}
    requires (refused == Request(1, 2) && status == 409) || (refused == Request(2, 2) && status == 403)
    ensures RunTo(longer, s.(resolver := Some(Answered(1, 2, refused.signer == 2, Reply(status, None))),
                             flight := left), true)
  {
    var reply := Reply(status, None);
    var heard := s.(resolver := Some(Asked(1, 2, refused.signer == 2, Some(reply))), flight := left);
    longer := Extended(run, s, Deliver(refused, 1, reply), heard, true);
    var answered := s.(resolver := Some(Answered(1, 2, refused.signer == 2, reply)), flight := left);
    longer := Extended(longer, heard, Hear(false), answered, true);
  }

  /** The ask hears a definite refusal under the current key, then one under the new key, and drops the new key. */
  lemma Refused(run: (seq<System>, seq<Step>), saved: Record, dropped: Record, ask: Request)
    returns (longer: (seq<System>, seq<Step>))
    requires saved == Record(Configured, "supervisor", 1, Some(2)) && dropped == saved.(pendingKey := None)
    requires ask == Request(1, 2)
    requires RunTo(run, System(Lasting(saved), 1, Some(Asked(1, 2, false, None)), multiset{ask, ask}), true)
    ensures RunTo(longer, System(Lasting(dropped), 1, None, multiset{ask}), true)
  {
    var own := Request(2, 2);
    var s := System(Lasting(saved), 1, Some(Asked(1, 2, false, None)), multiset{ask, ask});
    assert s.flight - multiset{ask} == multiset{ask};
    longer := Hears(run, s, ask, 409, multiset{ask});
    var s2 := System(Lasting(saved), 1, Some(Answered(1, 2, false, Reply(409, None))), multiset{ask});
    var s3 := System(Lasting(saved), 1, Some(Asked(1, 2, true, None)), multiset{ask, own});
    longer := Extended(longer, s2, Decide, s3, true);
    assert s3.flight - multiset{own} == multiset{ask};
    longer := Hears(longer, s3, own, 403, multiset{ask});
    var s5 := System(Lasting(saved), 1, Some(Answered(1, 2, true, Reply(403, None))), multiset{ask});
    var s6 := System(Lasting(saved), 1, Some(Decided(1, 2, false)), multiset{ask});
    longer := Extended(longer, s5, Decide, s6, true);
    longer := Extended(longer, s6, Settle(Persisted), System(Lasting(dropped), 1, None, multiset{ask}), true);
  }

  /**
  Without the assumption a run strands the pin: the first ask gives up with its request still on the way, the retry is
  refused and drops the new key, and only then does Team handle the first request.
  */
  lemma LateDeliveryStrandsThePin() returns (run: (seq<System>, seq<Step>), last: System)
    ensures RunTo(run, last, true) && !Pinned(last.disk.file, last.pin)
  {
    var record, ask := Record(Configured, "supervisor", 1, None), Request(1, 2);
    var saved := record.(pendingKey := Some(2));
    var s := System(Lasting(record), 1, None, multiset{});
    run := ([s], []);
    var begun := s.(disk := Lasting(saved));
    run := Extended(run, s, Begin(LocalIdentity("supervisor", 2), Persisted), begun, true);
    run := Asks(run, begun.disk, multiset{}, true);
    var asked := System(Lasting(saved), 1, Some(Asked(1, 2, false, None)), multiset{ask});
    var gaveUp := asked.(resolver := None);
    run := Extended(run, asked, Fail, gaveUp, true);
    run := Asks(run, begun.disk, multiset{ask}, true);
    run := Refused(run, saved, record, ask);
    var dropped := System(Lasting(record), 1, None, multiset{ask});
    last := System(Lasting(record), 2, None, multiset{});
    run := Extended(run, dropped, Deliver(ask, 2, Reply(200, Some(2))), last, true);
  }
}
