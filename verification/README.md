# Shimpz Admin backend: verified state machines

A Dafny model of the small state machines the Shimpz Admin backend (`backend/src`) keeps behind its locks, and proofs of
what they guarantee over whole runs: bounds, expiry, lost answers, crashes and interleavings.

`dafny verify dfyconfig.toml` checks everything. Each module is one file:

- **Signing-key rotation** - `SupervisorKey` (the calls on Admin's record and Team's pin) and `RotationProtocol` (every
  interleaving of the two parties, the network, the background retry, restarts and losses of power).
- **The store** - `Store` (the journaled transaction, the cached read and the replaced file).
- **Invalidation** - `Topics` and `Outbound` (the live objects), `Calls` (a socket's calls), `Senders` (concurrent senders
  on one queue) and `Invalidation` (writes, raises, reads and drains as one machine).
- **Concurrency** - `Lanes` (bounded workers, one atomic action a step) and `SignIns` (starts racing revocation).
- **The authentication record** - `Totp`, `Classify`, `Factors` (what each transaction computes), `FactorEffects`
  (when each succeeds and what it leaves), `FactorLaws` and `FactorRuns` (what it keeps, once and over runs), and
  `Supervisor` (the record's life in the store, and the sessions it ends).
- **Bounded memories against an unbounded log** - `Budget`, `Sessions`, `ActionPasswords`, `Challenges`, `Handoffs`. Each
  class keeps a ghost log of everything that ever happened, and its contracts answer as that log would.
- **Packing and order** - `Json`, `Packing`, `Catalog`, `Acknowledgments`, `TeamOrder`, `OrderFile`, `OrderRuns`,
  `OrderLife` (the methods that take the steps of those runs).

`Disks` (a replaced file and what a loss of power may leave of it), `Wrappers`, `Lists` and `Frames` hold what several of
them share.

## Conventions

A class has the source's own fields and one method for each of its critical sections. Where the guarantee is about
interleavings of several parties, the model is a machine: a state, a step, `Enabled` and `After` (or a relation `Next`), and
lemmas over all runs. A state machine's step relation says what the methods' contracts say.

Clock readings, random values, I/O outcomes and what cryptography decides are parameters. A file replacement ends as
`NotReplaced`, `Unconfirmed` (renamed, then its directory could not be synced) or durable; a loss of power leaves what was
durable last or anything shown since.

Catalog cursors carry offsets up to 9999, and the laws of `Catalog` speak of any catalog; the catalog's own limit of 1,000
entries (`backend/src/chat/catalog/store.rs:50`) keeps every real one below that.

## Where the code does less than its words

Each of these keeps the code's behaviour, shows an input and states exactly when the promise holds.

- `backend/src/fsio/mod.rs:40-46` promises that a failed `replace_atomically` leaves the earlier content. It does so if and
  only if the rename did not happen: after a rename whose directory sync fails the new content shows (`OrderFile.File.Save`,
  `Store.Store.WriteLocked`). A logout that fails so has changed the session secret, and no session is ended
  (`Supervisor.UnconfirmedLogoutEndsNoSession`; `Supervisor.Supervisor.Transaction` says when they are).
- `backend/src/space/supervisor_key.rs:3-8` saves the new signing key durably before it asks Team. A begin whose directory
  sync fails refuses, but its key shows, and the next retry asks for it: a loss of power may then leave a record without the
  key Team switched to (`RotationProtocol.UnsyncedKeyStrandsThePin`). The pinned key is never lost exactly when Team switches
  to durable keys only (`RotationProtocol.NoRunDropsThePinnedKey`).
- A confirmed write caches its content under the identity it finds at the path afterwards. If another process replaced the
  file by another content in between, and only then, later reads answer the wrong content (`Store.Store.WriteLocked`).
- The bytes a socket holds stay within the limit and one frame for one sender only; n concurrent senders may leave n frames
  past it, and no more (`Senders.HeldBytesAreBounded`, `Senders.BoundIsReached`).
- `Topics::changed` calls its listeners after releasing its lock. When two threads raise one topic and their notices arrive
  in the other order, the older one may replace the newer in the queue (`Invalidation.OvertakenNoticeLosesAnInvalidation`).
  A notice is lost exactly when it does so and nothing else tells the page as new a revision
  (`Invalidation.StepLosesNothingExactly`, `Invalidation.RunLosesNothingExactly`).
- Answers of two starts of one Team handled in the other order leave a live session untracked, so that revoking it cancels
  nothing (`SignIns.OvertakenAnswerEscapesRevocation`). A revocation misses a live session exactly when an answer of another
  start of its Team was tracked over it (`SignIns.RevokingALiveSessionCancelsIt`).
- A wall clock set back between an enrollment and its confirmation, or before a passkey's creation, makes an accepted
  ceremony write a record that needs recovery (`FactorLaws.ApplyKeepsValid`, `FactorLaws.ClockSetBackNeedsRecovery`).
- A rejected answer does not reopen its challenge once 256 other Teams were opened after it, even when no newer opening of
  its own Team was (`Challenges.Challenges.Restore`, `Challenges.ManyOpeningsForget`).

## Model

| member | source | states |
|---|---|---|
| `SupervisorKey.AnswerDecides` | backend/src/space/supervisor_key.rs:3-107 | What one Team answer proves of the pinned key when Team pinned the current or the pending key before it: a confirmation, that it pins the pending key; a refusal, that it pins the current one, unless the refused request was the first and is asked again. |
| `SupervisorKey.Space.Resolve` | backend/src/space/supervisor_key.rs:145-169 | Whatever a lawful Team answers and however the commit ends, no key Team may pin is dropped. Team is asked under the current key, and again under the pending one exactly after a 403 or 409; the last answer is the outcome once the file is replaced: confirmed is Rotated, refused is Abandoned, and anything else leaves both keys. |
| `SupervisorKey.Space.Rotate` | backend/src/space/supervisor_key.rs:176-199 | With none open, a configured record saves another key, Team is asked for it, and its last answer decides: an answering Team settles it at once, and Waiting needs an answer that decided nothing. An open rotation is settled first; once Team refused it the new one is carried out just so, and while it stays open no new key is saved or asked for. |
| `SupervisorKey.Space.Begin` | backend/src/record/identity.rs:162-183 | A new key is saved only in a configured record, beside another one, and then always asked for; no begin that was refused or not persisted asks Team anything. |
| `SupervisorKey.Space.Settle` | backend/src/record/identity.rs:185-235 | Only the pending key a settlement names can be settled: any other name is busy and changes nothing; a success leaves no pending key and the one it adopts or the earlier one; without a replaced file nothing changes. |
| `SupervisorKey.Space.ResolveAgain` | backend/src/space/supervisor_key.rs:145-169 | With an answering Team one settlement ends the rotation with one key on both sides, and a repeat answers that none is open. |
| `RotationProtocol.NoRunDropsThePinnedKey` | backend/src/space/supervisor_key.rs:3-247 | In every run of begins, asks, deliveries, losses, 5xx answers, settlements, retries, restarts and losses of power, whatever of the file was not yet durable, every record that is shown or may be left saves the key Team pins, if and only if Team never switches to a key that is not yet durable. |
| `RotationProtocol.DurableBeginsKeepThePin` | backend/src/space/supervisor_key.rs:3-11 | So no run drops it when each begin that replaced the file was durable, even if settlements were not. |
| `RotationProtocol.ShownFileSavesThePin` | backend/src/space/supervisor_key.rs:87-247 | Until power is lost, the file shown saves it in every run, whether or not it is durable. |
| `RotationProtocol.UnsyncedKeyStrandsThePin` | backend/src/record/identity.rs:162-183 | A concrete run: the begin is renamed but not synced and fails, the retry still finds the key and Team switches to it, and a loss of power leaves a record without it. |
| `RotationProtocol.StepIsSafeExactly` | backend/src/space/supervisor_key.rs:87-247 | A step keeps every possible record's pin and all the settlement knows, if and only if it is harmless: a switch, however late, needs the key shown and durable, and a settlement that took Team to pin no key yet. |
| `RotationProtocol.RunIsSafeExactly` | backend/src/space/supervisor_key.rs:87-247 | A run, late requests or not, is safe in every state if and only if each of its deliveries is harmless. |
| `RotationProtocol.SettlementIsExact` | backend/src/space/supervisor_key.rs:109-135 | While each loss of power left the pinned key, a settlement that reaches the file leaves exactly one key, the one Team pins: the pending key when adopted, the earlier one when dropped; one that does not reach it changes nothing. |
| `RotationProtocol.OnlySettlementsDropAKey` | backend/src/record/identity.rs:162-209 | An open rotation keeps both keys, and what a loss of power may leave, through retries, restarts and other begins, over any stretch of a run without a settlement that reaches the file and without a loss of power. |
| `RotationProtocol.OpenRotationCompletes` | backend/src/space/supervisor_key.rs:3-10 | Every open rotation can be completed: when Team switched already, the refused first request is asked again under the new key and confirmed, and Admin adopts it durably. |
| `RotationProtocol.StepKeepsInv` | backend/src/space/supervisor_key.rs:145-169 | Where no loss of power takes the pinned key, a step keeps the shown file's pin, and all the settlement copied, heard and decided true, if and only if it is an expected one. |
| `RotationProtocol.LateDeliveryStrandsThePin` | backend/src/space/supervisor_key.rs:68-84 | Without the assumption that a request is over when its ask returns, a concrete run leaves Team pinning a key Admin dropped. |
| `RotationProtocol.UnexpectedDeliveryStrands` | backend/src/space/supervisor_key.rs:68-84 | Any unexpected delivery, in whatever state, goes on to a record without the pinned key. |
| `Store.Store.Mutate` | backend/src/record/mod.rs:171-199 | A transaction whose read, update, write decision, journal or replacement refuses leaves the file as it was and ends no session; one renamed but unconfirmed has changed it and ends none; a persisted one leaves the updated value, and every tracked session is reported ended exactly when the session secret changed. |
| `Store.TransactionDecides` | backend/src/record/mod.rs:171-199 | A success left what the update computed, unless it was not to be written; a failure left what was read, unless a rename was not confirmed; a confirmed one is all a loss of power may leave. |
| `Store.Store.Get` | backend/src/record/mod.rs:115-145 | A quiet read answers exactly what parsing the file now would, whoever replaced or removed it before; a success is always what the file held at some moment of the read, and a failed one is an I/O error or corrupt. |
| `Store.Store.ReadLocked` | backend/src/record/mod.rs:115-135 | The same under the lock, with what each failure says: an I/O error comes from a failed stat or read, corruption from the text or from a file replaced while it was read; no failure touches the cache. |
| `Store.Store.WriteLocked` | backend/src/record/mod.rs:147-162 | A replacement that fails, even after its rename, leaves the cache as it was and coherent; a confirmed one caches what it wrote under the identity it finds at the path, which is coherent if and only if no other process put another content there in between. |
| `Invalidation.NoInvalidationIsLost` | backend/src/session/calls.rs:222-269 | While deliveries are harmless, a subscribed page that has drained its queue and heard no notice above the revision its result carries has a result that reflects every change whose raising reached the listener, in every interleaving of writes, raises, reads, replies, subscriptions and takes. |
| `Invalidation.StepKeepsResultsSound` | backend/src/session/calls.rs:226-233 | A result reflects every change its revision covers, because the revision is sampled before the read. |
| `Invalidation.StepKeepsTold` | backend/src/session/socket.rs:230-235 | No harmless step loses a due notice: the page knows it, or a queued frame or a waiting reply tells it one no older. |
| `Invalidation.StepLosesNothingExactly` | backend/src/session/outbound.rs:57-87 | A step loses no due notice if and only if it is harmless: it does not deliver an older notice over a newer queued one that nothing else tells the page. |
| `Invalidation.RunLosesNothingExactly` | backend/src/session/topics.rs:56-80 | No state of a run has lost a notice if and only if every delivery of the run is harmless. |
| `Invalidation.InOrderIsHarmless` | backend/src/session/topics.rs:56-80 | Deliveries that reach the listener in the order their revisions were taken are all harmless. |
| `Invalidation.OvertakenNoticeLosesAnInvalidation` | backend/src/session/topics.rs:56-80 | When two raising threads reach a listener in the other order, a concrete run coalesces the newer notice away and the drained page keeps a stale result. |
| `Invalidation.ClosedStays` | backend/src/session/socket.rs:166-175 | A closed socket queues nothing and its page receives nothing in any later state. |
| `Topics.Topics.Raise` | backend/src/session/topics.rs:56-80 | Raising advances that topic alone by one and puts exactly one notice on the queue of every open socket that subscribes to it; a name outside the grammar changes nothing. |
| `Topics.Tell` | backend/src/session/topics.rs:68-78 | Each listener gains its own notice and nothing else, in whatever order they are told. |
| `Topics.Topics.Listen` | backend/src/session/topics.rs:90-101 | Each listener gets an identifier of its own. |
| `Topics.Topics.Forget` | backend/src/session/topics.rs:104-109 | Only the named listener goes. |
| `Topics.Socket.Send` | backend/src/session/socket.rs:200-211 | A frame too large is refused untouched; an overflowing frame stays queued and closes the socket. |
| `Topics.Socket.End` | backend/src/session/socket.rs:166-175 | The first close code wins and nothing is queued after it. |
| `Topics.Socket.HearChanged` | backend/src/session/socket.rs:230-235 | A change is queued exactly when the open socket subscribes to its topic. |
| `Topics.Socket.Subscribe` | backend/src/session/socket.rs:310-321 | At most 64 topics, all or none; the answer names the current revision of every subscription. |
| `Calls.Admission` | backend/src/session/calls.rs:183-192 | A call is refused exactly when its minute is spent in the log of the call budget, or, for a change, of the change budget; the first refusal spends neither budget, the second has spent the call budget. |
| `Calls.Run` | backend/src/session/calls.rs:222-269 | A read's result, last in the queue, names the call; when it fits and succeeded it carries the revision its topic had before any raise that falls in the call, so afterwards the topic stands above it by exactly those raises. |
| `Calls.InFlightCalls.Take` | backend/src/session/socket.rs:393-423 | At most sixteen calls are in flight; an id in flight is a violation before anything else, and an ended authority starts nothing. |
| `Calls.SendResult` | backend/src/session/calls.rs:246-269 | Each reply is answered with exactly one result of its call, last in the queue: the reply's status when it fits and 502 otherwise, and its revision if and only if it fits and the status is from 200 to 299. |
| `Outbound.Outbound.Put` | backend/src/session/outbound.rs:57-87 | A frame is accepted unless the queue is closed, coalesces only the queued notice of its own topic, and overflow is told by the bytes queued; refinement of the whole log is kept. |
| `Outbound.Outbound.Take` | backend/src/session/outbound.rs:102-114 | The oldest frame leaves and its bytes with it, without underflow; refinement of the whole log is kept. |
| `Outbound.PutRefines` | backend/src/session/outbound.rs:57-87 | Plain frames are taken or queued in exactly the order put with none dropped, each topic has one queued notice at most, and its last put is the last of it taken or queued, after a put. |
| `Outbound.TakeRefines` | backend/src/session/outbound.rs:102-114 | The same after a take. |
| `Outbound.Outbound.StandsForLog` | backend/src/session/outbound.rs:57-114 | So does every queue in use, whatever was put and taken: each socket holds one. |
| `Outbound.PutBytes` | backend/src/session/outbound.rs:57-87 | A put changes the sum of the queued bytes by exactly the new frame less the notice it replaced. |
| `Outbound.Outbound.Close` | backend/src/session/outbound.rs:90-93 | Closing keeps what is queued. |
| `Outbound.Outbound.Queued` | backend/src/session/outbound.rs:97-99 | The bytes reported are the sum over the queued frames. |
| `Senders.HeldBytesAreBounded` | backend/src/session/socket.rs:200-211 | With n concurrent senders a socket never holds more than the limit and n largest frames. |
| `Senders.OneSenderHoldsOneFrameMore` | backend/src/session/socket.rs:200-211 | With one sender it never holds more than the limit and one frame. |
| `Senders.BoundIsReached` | backend/src/session/outbound.rs:57-87 | For every n a run reaches that bound, so the limit and one frame hold for one sender only. |
| `Lanes.LaneIsBounded` | backend/src/lanes/mod.rs:63-123 | In every interleaving at most `workers` operations run and at most the admission bound of jobs is admitted. |
| `Lanes.AllPermitsReturn` | backend/src/lanes/mod.rs:97-115 | Once every task returned, every permit is back and every job has its result. |
| `Lanes.CancelAnswersExactly` | backend/src/lanes/mod.rs:129-139 | `cancel` answers true exactly when the operation never runs, then or later; answered false, it has started and its result is never a cancellation. |
| `Lanes.StartRunsUnlessCancelled` | backend/src/lanes/mod.rs:104-110 | Once a job has its worker its operation runs, if and only if no cancellation of it was called for before. |
| `Lanes.CancelledByACall` | backend/src/lanes/mod.rs:129-139 | A job is cancelled, or ends as cancelled, only by a cancellation of that very job that found it pending. |
| `Lanes.ResultIsItsOperations` | backend/src/lanes/mod.rs:111-115 | Any other result is what the job's own operation ended with. |
| `Lanes.FinishedIsPublished` | backend/src/lanes/mod.rs:111-115 | What an operation ended with is its job's result once its task moved on, in every later state. |
| `Lanes.LaneGoesOn` | backend/src/lanes/mod.rs:97-115 | While a task has not returned some task can go on, whatever cancellations do. |
| `Lanes.CancelledGivesBack` | backend/src/lanes/mod.rs:98-100 | A job cancelled while it waits gives its admission back without ever taking a worker. |
| `Lanes.LaneIsAsAsked` | backend/src/lanes/mod.rs:63-68 | A lane has the workers and admissions it is asked for, one worker at least and no fewer admissions than workers. |
| `Lanes.DecidedStays` | backend/src/lanes/mod.rs:143-155 | A result once set never changes, and a word once decided stays. |
| `Lanes.RefusesOnlyWhenFull` | backend/src/lanes/mod.rs:75-82 | A job is refused exactly while every admission is taken, so a fresh lane admits its first. |
| `Lanes.StepConservesPermits` | backend/src/lanes/mod.rs:63-123 | Every permit is free or held by exactly one task. |
| `SignIns.RevokedIsCancelledOnce` | backend/src/team/sign_ins.rs:330-410 | Whatever the interleaving of starts, answers, losses, finishes and revocations, a session Admin heard of has exactly one Cancel task when a revocation found it starting or running in the tracker, and none otherwise. |
| `SignIns.EndedAuthorityCancels` | backend/src/team/sign_ins.rs:330-410 | Ending the authority of a start gets its session exactly one Cancel task whenever Admin hears of it, before or after, unless the session was finished or displaced by then: then none ever. |
| `SignIns.NamedByARevocation` | backend/src/team/sign_ins.rs:382-410 | Only a revocation that ended its authority marks a start or gives its session a Cancel task. |
| `SignIns.FinishedByItsEnd` | backend/src/team/sign_ins.rs:370-379 | A session stops being tracked as finished only when Admin learned that this very session runs no more. |
| `SignIns.FinishEndsTracking` | backend/src/team/sign_ins.rs:370-379 | It then does, without a Cancel task, and no other session is touched. |
| `SignIns.RevokedWhileStartingNeverRuns` | backend/src/team/sign_ins.rs:330-367 | A start revoked while Team is asked never enters the running map. |
| `SignIns.RevokedStays` | backend/src/team/sign_ins.rs:382-403 | It stays revoked and out of the running map in every later state. |
| `SignIns.RevokingALiveSessionCancelsIt` | backend/src/team/sign_ins.rs:382-410 | Revoking the authority of a session Team still runs, and Admin heard of, leaves it with its one Cancel task if and only if no answer of another start of its Team was tracked over it before. |
| `SignIns.InOrderRevocationCancels` | backend/src/team/sign_ins.rs:382-410 | With one Team's answers handled in order, it always does. |
| `SignIns.OvertakenAnswerEscapesRevocation` | backend/src/team/sign_ins.rs:330-367 | With two answers of one Team handled in the other order, a concrete run leaves a live session no revocation cancels. |
| `SignIns.Tracker.Answered` | backend/src/team/sign_ins.rs:330-367 | The answered start leaves the starting list, and runs exactly when Team started it and nothing revoked it. |
| `SignIns.Tracker.Finished` | backend/src/team/sign_ins.rs:370-379 | Only the Team's same session stops being tracked. |
| `SignIns.Tracker.Revoke` | backend/src/team/sign_ins.rs:382-403 | Exactly the named running sessions are taken to be cancelled and leave the running map, exactly the named starts are marked, and nothing else changes. |
| `FactorLaws.ApplyKeepsValid` | backend/src/record/factors.rs:130-600 | Every operation takes a valid record to a valid one, in the state the ladder gives it, if and only if its clock is not before the creation of the factor it would activate or of the passkey it uses, as a caller can tell beforehand; otherwise the record needs recovery. |
| `FactorLaws.ClockSetBackNeedsRecovery` | backend/src/signin/totp/mod.rs:267-292 | A concrete accepted confirmation, on a clock set back by one second, leaves a record that needs recovery. |
| `FactorLaws.GenerationCountsFactorChanges` | backend/src/record/factors.rs:198-600 | The generation rises by exactly one for an outcome that changes the factors and only then; the TOTP secret and status, the recovery set and the passkeys' standing never change without it, and the session secret becomes the new one exactly when sessions must end. |
| `FactorLaws.StaleChangesNothing` | backend/src/record/factors.rs:198-312 | An operation with a stale generation changes no factor, counter or secret. |
| `FactorLaws.RefusalsAreKept` | backend/src/record/factors.rs:79-89 | Each refused attempt adds one to the attempts since the last sign-in, a sign-in moves them to those reported, each counter stops at a million, and only an acknowledgment takes reported ones away; short of that bound no refusal is lost. |
| `FactorLaws.AcceptedRecoveryUsesOneCode` | backend/src/signin/recovery/mod.rs:184-216 | An accepted recovery code is an unused one of the current set with its digest; it is used up and every other code stays as it was, one fewer remains, and a new pending factor replaces TOTP; any other attempt leaves the set as it was. |
| `FactorLaws.AcceptedEnrollmentBringsCodes` | backend/src/record/factors.rs:198-240 | An accepted enrollment activates the pending secret with its codes; no other attempt changes the codes or the status. |
| `FactorLaws.AssertionsAdvance` | backend/src/record/factors.rs:546-635 | A signature counter in use only advances: an assertion that does not advance it suspends the passkey and keeps the counter, and no assertion touches another passkey. |
| `FactorLaws.VerifyTotpKeepsValid` | backend/src/record/factors.rs:198-240 | An accepted enrollment configures the record exactly when its clock fits; every other attempt keeps the state. |
| `FactorLaws.SpendKeepsValid` | backend/src/record/factors.rs:267-312 | An accepted recovery code leads to recovery enrollment in a valid record; every other attempt keeps the state. |
| `FactorLaws.AddKeepsValid` | backend/src/record/factors.rs:476-520 | An added passkey leaves at most eight, each valid and no credential twice. |
| `FactorLaws.AssertionKeepsValid` | backend/src/record/factors.rs:546-635 | An assertion leaves a valid record exactly when its clock is not before the passkey's creation, also when it suspends the passkey. |
| `FactorEffects.StatesAreExact` | backend/src/record/classify.rs:194-247 | A record is in each state exactly when its members say so, one by one: an identity, counters, at most eight sound passkeys and a well-formed factor, told apart by the factor's status and by null or ten different recovery codes; otherwise it needs recovery. |
| `FactorEffects.ValidIsWellFormed` | backend/src/signin/totp/mod.rs:133-165 | What makes a factor and a passkey valid, member by member. |
| `FactorEffects.SetupBegins` | backend/src/record/factors.rs:130-174 | Setup begins exactly on a record without a password or identity, and puts each drawn value in its own member. |
| `FactorEffects.SetupResumes` | backend/src/record/factors.rs:181-190 | A setup is resumed exactly while it pends and not before its creation, with its secret, its refusals and a new window. |
| `FactorEffects.CeremoniesAreAdmitted` | backend/src/record/factors.rs:35-48 | A ceremony is admitted exactly in its own state, and one that enrolls only with ten new codes. |
| `FactorEffects.TotpIsAnswered` | backend/src/signin/totp/mod.rs:245-292 | Each admitted code is told one answer: changed, expired, locked, accepted exactly when of a later period, or refused; a refusal counts once and the fifth in a row locks for five minutes, doubled to four hours; no other member changes. |
| `FactorEffects.RecoveryIsAnswered` | backend/src/record/factors.rs:267-312 | A recovery code is looked at once a set exists and accepted exactly when an unused code of the current set has its digest and no lock holds; a refusal counts as a TOTP refusal does; no other member changes. |
| `FactorEffects.ReplacementIsStored` | backend/src/record/factors.rs:319-338 | A replacement stores exactly the new set on a configured record and raises the generation. |
| `FactorEffects.AcknowledgmentTakes` | backend/src/record/factors.rs:370-379 | An acknowledgment takes the reported failures it names, or all there are, and nothing else. |
| `FactorEffects.LogoutIsAnswered` | backend/src/record/factors.rs:386-409 | A logout changes the session secret, and says so, exactly for a valid session of a configured record. |
| `FactorEffects.AddedJoinsThoseInUse` | backend/src/record/factors.rs:476-520 | A passkey is added exactly to a configured record of the ticket's generation with fewer than eight in use and none of its credential; those in use stay in their order, the new one comes last, and suspended ones go. |
| `FactorEffects.AssertionIsCommitted` | backend/src/record/factors.rs:546-635 | An assertion is committed exactly when the record still holds the very passkey of its ceremony; it suspends it exactly when the counter did not advance or the backup identity is another, and otherwise stores its counter; every other passkey stays. |
| `FactorEffects.UnwrittenChangesNothing` | backend/src/record/factors.rs:267-409 | What a transaction does not persist would have changed nothing. |
| `FactorRuns.RunStaysValid` | backend/src/record/factors.rs:130-600 | Over every run of transactions whose clocks fit, whatever commits fail and power is lost, every record that is shown or may be left stays valid, and none is a step down the ladder, or an earlier generation, than one that was durable. |
| `FactorRuns.UnconfirmedChangeMayBeUndone` | backend/src/fsio/mod.rs:47-71 | A change never confirmed shows, fails, and may be gone after a loss of power. |
| `FactorRuns.NoTotpCodeIsAcceptedTwice` | backend/src/signin/totp/mod.rs:219-292 | Over every run, even across losses of power, while one factor stays active each accepted code is of a later period than every one before. |
| `FactorRuns.NoRecoveryCodeIsSpentTwice` | backend/src/signin/recovery/mod.rs:189-216 | Over every run, even across losses of power, until another set is brought in no recovery code is accepted twice. |
| `FactorRuns.NoStaleTicketEverChanges` | backend/src/record/factors.rs:198-600 | Once every record a loss of power may leave is past a ticket's generation, no operation with that ticket changes any factor, counter or secret again, however the run goes on. |
| `FactorRuns.AnsweredChangeOutdatesTickets` | backend/src/record/factors.rs:198-600 | An answered change of the factors does that to every ticket issued before it. |
| `Totp.LockDoubles` | backend/src/signin/totp/mod.rs:236-242 | The bounded shift changes no lock: every refusal past the limit doubles it up to four hours. |
| `Totp.RefusalsLock` | backend/src/signin/totp/mod.rs:245-292 | While the lock holds nothing is evaluated; the fifth refusal in a row locks, and each later one doubles the lock. |
| `Totp.AcceptedStepsRise` | backend/src/signin/totp/mod.rs:267-292 | An accepted step is past the last accepted one and becomes it; a refusal moves neither it nor the status. |
| `Totp.VerifyKeepsValid` | backend/src/signin/totp/mod.rs:133-165 | An attempt leaves a valid factor exactly when it does not activate one before its creation. |
| `Classify.ValuesCount` | backend/src/record/classify.rs:124-142 | Sorting and dropping repetitions keeps the length exactly when nothing repeats. |
| `Classify.ConsumedHostResets` | backend/src/record/classify.rs:167-192 | The list is read exactly when it is within bounds, positive in time and without repetition. |
| `Supervisor.Supervisor.Transaction` | backend/src/record/mod.rs:171-199 | The record's whole life is a run of operations, so what holds over runs holds of it; each keeps it valid exactly when its clock fits or nothing reaches the file, raises the generation by one exactly when other factors reach the file, changes nothing for a stale ticket, and ends every tracked session exactly on a success that leaves another session secret. |
| `Supervisor.TransactionIsLawful` | backend/src/record/factors.rs:130-600 | The same of every operation and every way its commit may end. |
| `Supervisor.UnconfirmedLogoutEndsNoSession` | backend/src/record/mod.rs:171-199 | A logout whose file was renamed but not confirmed fails, ends no session, and leaves the new session secret in the record. |
| `Challenges.Challenges.Restore` | backend/src/routine/answer.rs:127-140 | A rejected answer reopens its challenge, with its own deadline and request, if and only if its opening is still the Team's latest and fewer than 256 Teams were opened since. |
| `Challenges.ManyOpeningsForget` | backend/src/routine/answer.rs:113-140 | After an opening and 256 of other Teams, the Team's latest opening is tracked no more, so its rejected answer does not reopen it. |
| `Challenges.Challenges.Take` | backend/src/routine/answer.rs:142-152 | A taken challenge is the Team's latest opening, unchanged and unexpired, and leaves the open list whether it expired or not; a superseded one is never released. |
| `Challenges.Challenges.Remember` | backend/src/routine/answer.rs:106-124 | An opening replaces the Team's earlier one; at most 64 stay open and the 256 newest generations stay tracked. |
| `Challenges.OpenedIsRepresented` | backend/src/routine/answer.rs:106-124 | After every opening the tracked generations are exactly the last 256 of the whole history's most recent openings, and every open challenge is its Team's latest. |
| `Challenges.NewestStayNewest` | backend/src/routine/answer.rs:113-116 | Dropping the oldest beyond 256 loses nothing the unbounded list keeps last. |
| `Challenges.TrackedUntilManyOpened` | backend/src/routine/answer.rs:55-60 | A Team's latest opening is tracked exactly until 256 other Teams were opened after it. |
| `Challenges.StoredAreLatest` | backend/src/routine/answer.rs:62-69 | Storing keeps at most 64 open challenges, one for a Team: exactly the new one and the unexpired ones of other Teams, but for the oldest of them at capacity. |
| `Challenges.OpenIsExact` | backend/src/routine/answer.rs:62-69 | Over all openings, reopenings and answers: a challenge is open if and only if no answer named it since it was put, and each challenge put since was another Team's, came before its deadline, and left it among the 63 newest that stayed. |
| `Challenges.Openings.Opening` | backend/src/routine/answer.rs:155-165 | At most 64 Teams have openings in flight, and each is counted once. |
| `Challenges.Openings.Opened` | backend/src/routine/answer.rs:167-175 | Ending an opening takes exactly one from its Team's count and forgets the Team with its last. |
| `Budget.Budget.Admit` | backend/src/session/budget.rs:43-56 | The pruned deques admit exactly as a budget over the full log would, for every session. |
| `Budget.SpentCounts` | backend/src/session/budget.rs:43-56 | What is spent is the number of the session's admissions later than 60,000 ms ago. |
| `Budget.NoMinuteExceedsTheLimit` | backend/src/session/budget.rs:43-56 | No half-open window of 60,000 ms of any session holds more admissions than the limit. |
| `Budget.Within` | backend/src/session/budget.rs:48-50 | What the pop loop leaves is as much as the session spent of its minute. |
| `Budget.Renewals.Due` | backend/src/session/budget.rs:76-85 | A renewal is granted exactly when the whole log has none of the session within 30,000 ms, so any two are that far apart. |
| `Catalog.WalkReadsTheCatalog` | backend/src/chat/assets.rs:105-179 | Following cursors through an unchanged catalog, empty or not, reads exactly the catalog, in order and in as few pages as any split within the bound, if and only if each entry fits a page alone and the last page starts below offset 10,000. |
| `Catalog.ShortCatalogsAreRead` | backend/src/chat/assets.rs:145-179 | A catalog of at most 10,000 entries, empty or not, is read whole exactly when each entry fits a page alone; the empty one is one empty page. |
| `Catalog.StartAcceptsExactly` | backend/src/chat/assets.rs:105-136 | A cursor is accepted exactly when it is the printed one of an offset from 1 to 9999 inside this very catalog, and starts there. |
| `Catalog.ChangedCatalogIsRefused` | backend/src/chat/assets.rs:105-136 | Once the catalog is another one, a cursor of the earlier one answers as changed, wherever it pointed. |
| `Catalog.CatalogPage` | backend/src/chat/assets.rs:145-179 | The page loop and its refusals in their order: locale, catalog, cursor, oversized entry. |
| `Catalog.RefusalsInOrder` | backend/src/chat/assets.rs:145-179 | A page is refused for its locale, then for a catalog not published, then for its cursor, then for an entry too large; an accepted one is of the locale asked for. |
| `Catalog.PageIsFull` | backend/src/chat/assets.rs:27-30 | A page's list stays below 4 KiB less than a frame, and would not with one more entry. |
| `Catalog.FrameLength` | backend/src/chat/assets.rs:27-28 | A frame is as long as its fixed text and what it carries whole. |
| `Catalog.FilledTo` | backend/src/chat/assets.rs:160-163 | The running size stops the page exactly where its list no longer fits. |
| `Catalog.FrameFits` | backend/src/chat/assets.rs:27-28 | Every page with its whole result frame fits the socket's bound, for any call id and any number of entries. |
| `Packing.FullIsMinimal` | backend/src/chat/assets.rs:160-164 | Pieces that each take all they can are as few as those of any contiguous split within the bound. |
| `Acknowledgments.Acknowledgments` | backend/src/routine/team.rs:157-181 | The chunks are non-empty, concatenate back to the deliveries, meet the count bound and, when each delivery fits alone, the byte bound, and no other such split has fewer. |
| `Acknowledgments.SizeDecides` | backend/src/routine/team.rs:167-177 | The running size is the compact JSON length of the chunk's body, so it closes a chunk exactly at 256 deliveries or when the next one would take the body past 16 KiB. |
| `Json.ItemsJoin` | backend/src/routine/team.rs:167-177 | Two lists written after each other have one more comma between them. |
| `Acknowledgments.BodiesFit` | backend/src/routine/team.rs:157-181 | When each delivery fits a body alone, each chunk's body is within the bound. |
| `TeamOrder.ArrangeIsPermutation` | backend/src/team/order.rs:186-198 | The listing is a permutation of the inventory whatever was saved. |
| `TeamOrder.PlacedFollowsSaved` | backend/src/team/order.rs:186-198 | The saved part follows the saved order, without the ids that name no Team. |
| `TeamOrder.UnsavedStandInOrder` | backend/src/team/order.rs:186-198 | Teams missing from the saved order stand at the front, each behind exactly the ones the inventory lists before it. |
| `TeamOrder.SavedPermutationIsTheOrder` | backend/src/team/order.rs:251-277 | When the saved ids permute the Teams exactly, the listing shows that order. |
| `OrderFile.File.Forget` | backend/src/team/order.rs:128-136 | A success leaves the order durably without that id and otherwise as it was; a failure shows, now or after a crash, only the old order, none, or that one. |
| `OrderFile.WithoutKeepsOthers` | backend/src/team/order.rs:128-136 | Without one id, exactly the other positions remain. |
| `Lists.WithoutSplits` | backend/src/team/order.rs:128-136 | What remains keeps its order. |
| `OrderFile.File.Clear` | backend/src/team/order.rs:171-182 | A success leaves durably no order; a failure only the old order or none. |
| `OrderFile.File.ReleaseForCreate` | backend/src/team/order.rs:282-308 | A granted creation leaves, durably, no position for the id, unless the inventory shows that it names a Team now; an invalid order is removed first. |
| `OrderFile.File.Reorder` | backend/src/team/order.rs:251-277 | Only ids that permute the Teams exactly are saved, and the answer lists them in that order; a failed save may still show it. |
| `OrderFile.File.SavedForMutation` | backend/src/team/order.rs:112-121 | An invalid order is unlinked and never read as naming no Team. |
| `OrderFile.File.Save` | backend/src/fsio/mod.rs:47-71 | An atomic replacement that fails after its rename shows the new content without making it durable. |
| `OrderRuns.NewTeamInheritsNoPosition` | backend/src/team/names.rs:50-65 | Over every run of creations, deletions, reorders, resets, lost answers, damage and crashes, a Team created anew has no position in anything the file shows or may show after a crash, and leads the listing. |
| `OrderRuns.EveryPositionIsTheTeamsOwn` | backend/src/team/order.rs:3-11 | In every reachable state each position a present Team has was saved for that very Team. |
| `OrderRuns.StepKeepsInv` | backend/src/team/order.rs:251-346 | Every step keeps the invariant behind both: each position of a present Team is its own, and an id about to be created anew has none. |
| `OrderRuns.LosingTheTeamMeanwhileInherits` | backend/src/team/order.rs:282-308 | Were Team to lose the Team between the release that saw it and the creation, a concrete run gives the new Team the old position. |
| `OrderLife.Admin.Release` | backend/src/team/order.rs:282-308 | Releasing the id on the file, with what Team shows, is a step of the quiet runs, and the creation starts exactly when nothing refuses. |
| `OrderLife.Admin.Create` | backend/src/team/names.rs:50-65 | The creation is such a step too, and a Team created anew leads every listing of what the file shows or may show after a crash. |
| `OrderLife.Admin.Delete` | backend/src/team/names.rs:129-144 | So is a deletion, which leaves, durably, no position for the id when it succeeds and the file could be written. |
| `OrderLife.Admin.Reset` | backend/src/space/reset.rs:45-60 | So is a reset, which leaves durably no order at all when it succeeds and the file could be removed. |
| `OrderLife.Admin.Reorder` | backend/src/team/order.rs:251-277 | So is a reorder, whose answer lists exactly the Teams in the order asked for. |
| `ActionPasswords.WrongChecksAreSpread` | backend/src/chat/human.rs:496-527 | n wrong checks with no verified one between them take at least a minute for each third of them but the last, from the end of the first to the start of the last. |
| `ActionPasswords.ActionPasswords.Authenticate` | backend/src/chat/human.rs:496-527 | The two counters answer exactly as the whole log of checks would: a held lock refuses without a check and tells its seconds rounded up; otherwise a password is accepted exactly when its kind, length and record allow a check and it matches, is counted as wrong exactly when it does not, the n-th wrong one is denied with what remains or locks, and an unavailable check resets nothing. |
| `ActionPasswords.Spaced` | backend/src/chat/human.rs:496-527 | A wrong check begins after the one before it ended, and a minute later when that one was a third. |
| `ActionPasswords.WrongChecksAreSinceVerified` | backend/src/chat/human.rs:509-524 | The checks counted are exactly the wrong ones that no verified one followed. |
| `Sessions.EndedExactlyOnce` | backend/src/signin/sessions.rs:75-146 | Each session that began to be tracked is tracked still or was reported ended, and exactly once. |
| `Sessions.Sessions.Register` | backend/src/signin/sessions.rs:75-106 | A registration ends every idle session and, at 64, exactly one more, the least in last activity and registration; at most 64 are tracked. |
| `Sessions.EndForMeans` | backend/src/signin/sessions.rs:75-106 | Everyone idle for an hour ends, and one more exactly when 64 others would be left: the one seen least recently. |
| `Sessions.LeastIsUnique` | backend/src/signin/sessions.rs:89-99 | No two sessions tie, so which one is evicted does not depend on the map's order. |
| `Sessions.Making` | backend/src/signin/sessions.rs:78-99 | The eviction loop makes room with at most one eviction. |
| `Sessions.Sessions.Current` | backend/src/signin/sessions.rs:109-130 | A session is current exactly when it is tracked and its last registration or activity is within the hour; only activity moves that time, and an idle one is reported ended. |
| `Sessions.TrackedUntilEnded` | backend/src/signin/sessions.rs:75-146 | A session is tracked exactly from a registration until it is reported ended. |
| `Sessions.IdleAfterAnHour` | backend/src/signin/sessions.rs:109-130 | It idles exactly an hour after its latest registration or activity. |
| `Sessions.Sessions.EndAll` | backend/src/signin/sessions.rs:143-146 | Every tracked session ends and is reported. |
| `Handoffs.LeavesExactlyOnce` | backend/src/integrations/handoff.rs:138-356 | Each issued handoff is held still or left the store, and exactly once. |
| `Handoffs.AuthorizedAtMostOnce` | backend/src/integrations/handoff.rs:192-206 | Each issued handoff is authorized at most once. |
| `Handoffs.HeldForItsTime` | backend/src/integrations/handoff.rs:138-356 | From its issue on a handoff is held until it leaves for another reason or an expiry is read ten minutes later, and from then on it is never authorized or released. |
| `Handoffs.LiveHaveTime` | backend/src/integrations/handoff.rs:138-185 | Every call first lets exactly those leave whose time is over. |
| `Handoffs.SelectionIsUnique` | backend/src/integrations/handoff.rs:241-260 | At most one handoff answers a selection, so it does not depend on the map's order. |
| `Handoffs.Handoffs.Issue` | backend/src/integrations/handoff.rs:138-185 | At most 256 handoffs, at most one for a session, Team and challenge, whatever order the clock is read in. |
| `Handoffs.Handoffs.Authorize` | backend/src/integrations/handoff.rs:192-206 | A live handoff without a redirect takes a valid one; nothing else changes. |
| `Handoffs.Handoffs.Consume` | backend/src/integrations/handoff.rs:213-239 | The live handoff of the token leaves whatever it is, and its redirect is released only if it was authorized for this automatic mode. |
| `Handoffs.Handoffs.Complete` | backend/src/integrations/handoff.rs:267-314 | A completion succeeds if and only if a live, authorized, out-of-band handoff of this session, Team and challenge stores the code's state; it alone leaves, and any other code leaves it pending. |
| `Handoffs.Handoffs.Cancel` | backend/src/integrations/handoff.rs:321-338 | The one handoff of the session, Team and challenge leaves, if there is one. |
| `Handoffs.Handoffs.CancelSession` | backend/src/integrations/handoff.rs:341-351 | Exactly the signed-out session's handoffs leave, and are counted. |
| `Handoffs.Handoffs.Discard` | backend/src/integrations/handoff.rs:354-356 | Exactly the named reservation leaves. |

## Left out

- HTTP, WebSocket framing, TLS, the file system and Docker: a file is a value with an identity and an atomic
  replacement.
- Cryptography: HMAC codes, scrypt, hashes, signatures and assertion checks are abstract; a digest stands for what it
  digests, so collisions are not modelled.
- Team's own code: the rules it is assumed to follow are `SupervisorKey.TeamRules`, that it starts a sign-in session
  only once that Team's earlier one ended, and that its inventory changes only as the steps of `OrderRuns` say.
- RotationProtocol.NoRunDropsThePinnedKey: takes a request to have reached Team or been dropped when its ask returns, and
  a crash to fall outside one; `RotationProtocol.LateDeliveryStrandsThePin` shows a run where it is not, and
  `RotationProtocol.RunIsSafeExactly` which late deliveries do no harm.
- The JSON of the authentication record: its members are typed values, absent, null or malformed; numbers are unbounded.
- Well-formedness of identifiers, credential ids, origins, OAuth arguments and redirect URLs: a parameter says whether
  each was accepted.
- Browser origin binding and the writing of host reset capabilities (`record/identity.rs`), and reads of the record that
  change nothing.
- Closed-shape validators of chat frames, choices and presentations (`chat/human.rs`), and the static method tables of
  `session/frames.rs`: field checks one branch settles.
- Chat attachment, activity frames and the socket's read, write and expiry loops.
- Reading a clock before a lock is taken, for `Budget`, `Sessions` and `ActionPasswords`: each critical section is one
  step that reads the clock once, and the clock does not go back from one to the next. `Handoffs` and `Challenges` need
  no such order.
- The interleaving within one lane, within the rotation and within the sign-in tracker is a machine over values, not a
  class: what runs between two atomic actions is the point. Locks, condition variables and task spawning appear only as
  which steps may interleave.
- The number of times a cancellation task retries, and the lane it runs on.
- Temporary files of an interrupted order write: `OrderFile.File.Clear` only takes whether they could be removed.
- Candidate ids for a new Team's name are not shown distinct; a creation is modelled for any id.
- A factor operation edits its own copy of the record before the transaction writes it, so the operations are functions;
  only the transaction around them changes an object.
- Store.Store.Mutate: assumes that no other process replaces the file in the midst of a transaction; the read and the
  write alone do not (`Store.Store.ReadLocked`, `Store.Store.WriteLocked`).
- Invalidation.NoInvalidationIsLost: assumes harmless deliveries, as `Invalidation.RunLosesNothingExactly` shows a run
  must.
- SignIns.RevokingALiveSessionCancelsIt: speaks of sessions whose answer Admin received; a session whose answer was lost
  is unknown to Admin.
- OrderRuns.NewTeamInheritsNoPosition: assumes Team does not lose the very Team whose id is being created.
- FactorRuns.RunStaysValid: assumes the clock of each persisted step fits, as `FactorLaws.ApplyKeepsValid` states
  exactly.
