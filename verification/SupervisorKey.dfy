/**
One rotation of the Supervisor's signing key as its calls see it: Admin's record, Team's pin, and the settlement that
brings the two together whatever Team answers.

A key stands for its seed and for everything derived from it (the verification key Team is sent, its digest); different
seeds are assumed to give different ones.
*/
module SupervisorKey {
  import opened Lists
  import opened Wrappers
  import opened Store

  type Key = nat

  datatype LocalIdentity = LocalIdentity(supervisorId: string, key: Key)

  /** What the record's own classification says: configured, another state, or a record needing recovery. */
  datatype Verdict = Configured | NotConfigured | NeedsRecovery

  /** The record's members a rotation reads or writes. */
  datatype Record = Record(verdict: Verdict, supervisorId: string, signingKey: Key, pendingKey: Option<Key>)

  // ---- Admin's durable side ----

  /** A new key may pend only when none does, in a configured record, and only if it is another one. */
  function BeginUpdate(data: Record, pending: LocalIdentity): Result<(Record, ()), StateError> {
    if data.verdict == NeedsRecovery then Failure(PasswordRecord)
    else if
      || data.verdict != Configured
      || data.pendingKey.Some?
      || pending.supervisorId != data.supervisorId
      || pending == LocalIdentity(data.supervisorId, data.signingKey)
    then Failure(Rotation)
    else Success((data.(pendingKey := Some(pending.key)), ()))
  }

  /** Settles the rotation that `pending` opened: adopted or dropped. */
  function SettleUpdate(data: Record, pending: Key, adopt: bool): Result<(Record, ()), StateError> {
    if data.pendingKey != Some(pending) then Failure(Rotation)
    else Success((data.(signingKey := if adopt then pending else data.signingKey, pendingKey := None), ()))
  }

  /** The open rotation's key, unless the record names the current key as pending. */
  function PendingKey(data: Record): Result<Option<Key>, StateError> {
    if data.pendingKey == Some(data.signingKey) then Failure(Authority) else Success(data.pendingKey)
  }

  // ---- Team ----

  /** Team's answer: its status, and the key a closed `{"rotated": true, "key_sha256": ...}` body names, if any. */
  datatype Reply = Reply(status: nat, rotatedTo: Option<Key>)

  /** A request to pin `named`, signed by `signer`. */
  datatype Request = Request(signer: Key, named: Key)

  /** A definite refusal: neither success nor a server failure. */
  predicate Refuses(reply: Reply) {
    reply.status < 500 && reply.status != 200
  }

  predicate Confirms(reply: Reply, key: Key) {
    reply.status == 200 && reply.rotatedTo == Some(key)
  }

  /**
  What Team promises of the pin it has after one request, and of the answer it gives, 5xx standing also for an answer
  that never arrived: it replaces its pin only for a request its pinned key signed, confirms only the key it pins, and
  refuses only without switching; another signer is refused with 403 or 409, and its own pinned key, named again, never.
  */
  ghost predicate TeamRules(pin: Key, request: Request, pinAfter: Key, reply: Reply) {
    && (pinAfter == pin || (request.signer == pin && pinAfter == request.named))
    && (forall key :: Confirms(reply, key) ==> pinAfter == key)
    && (Refuses(reply) ==>
          && pinAfter == pin
          && (request.signer != pin ==> reply.status in {403, 409})
          && request != Request(pin, pin))
  }

  /** Admin's reading of the answer: Team pins the pending key, refuses, or decides nothing. */
  function Switched(reply: Reply, pending: Key): Option<bool> {
    if reply.status == 200 then (if reply.rotatedTo == Some(pending) then Some(true) else None)
    else if reply.status >= 500 then None
    else Some(false)
  }

  /** Whether a refused first request is asked again under the pending key. */
  predicate AsksAgain(reply: Reply, pending: Key) {
    Switched(reply, pending) == Some(false) && reply.status in {403, 409}
  }

  /** What one answer to `signer`'s request proves of the pin, when Team pinned one of the two keys before it. */
  lemma AnswerDecides(pin: Key, current: Key, pending: Key, signer: Key, pinAfter: Key, reply: Reply)
    requires current != pending && signer in {current, pending}
    requires TeamRules(pin, Request(signer, pending), pinAfter, reply)
    ensures pin in {current, pending} ==> pinAfter in {current, pending}
    ensures Switched(reply, pending) == Some(true) ==> pinAfter == pending
    ensures pin in {current, pending} && Switched(reply, pending) == Some(false) ==>
              pinAfter == current || (signer == current && AsksAgain(reply, pending))
  {
    if Switched(reply, pending) == Some(true) {
      assert Confirms(reply, pending);
    }
  }

  // ---- One settlement, without interference ----

  datatype Outcome = NoRotation | Rotated | Abandoned | Waiting

  datatype RotationFailure = Busy | Unavailable

  function FailureOf(error: StateError): RotationFailure {
    if error == Rotation then Busy else Unavailable
  }

  /** How Team treats each request in each of its states. */
  type TeamBehaviour = (Key, Request) -> (Key, Reply)

  ghost predicate Lawful(team: TeamBehaviour) {
    forall pin, request :: TeamRules(pin, request, team(pin, request).0, team(pin, request).1)
  }

  /** Team answers every request: it confirms the key it was asked to pin, or refuses. */
  ghost predicate Answering(team: TeamBehaviour) {
    forall pin, request :: Confirms(team(pin, request).1, request.named) || Refuses(team(pin, request).1)
  }

  /** No key Team may pin is lost: its pin is Admin's current key, or the pending one beside it. */
  predicate Pinned(data: Record, pin: Key) {
    Saves(data, pin) && data.pendingKey != Some(data.signingKey)
  }

  predicate Saves(data: Record, key: Key) {
    key == data.signingKey || data.pendingKey == Some(key)
  }

  /** One request, and what Team answered. */
  datatype Exchange = Exchange(request: Request, reply: Reply)

  /**
  How one settlement asks: under the current key, and again under the pending one exactly when the first answer was 403
  or 409.
  */
  predicate AsksInTurn(asks: seq<Exchange>, current: Key, pending: Key) {
    && 1 <= |asks| <= 2 && asks[0].request == Request(current, pending)
    && (|asks| == 2 <==> asks[0].reply.status in {403, 409})
    && (|asks| == 2 ==> asks[1].request == Request(pending, pending))
  }

  /** The last answer confirms this key. */
  predicate EndsConfirmed(asks: seq<Exchange>, key: Key) {
    asks != [] && var last := asks[|asks| - 1].reply; last.status == 200 && last.rotatedTo == Some(key)
  }

  /** The last answer is neither a success nor a failure of Team's. */
  predicate EndsRefused(asks: seq<Exchange>) {
    asks != [] && var last := asks[|asks| - 1].reply; last.status != 200 && last.status < 500
  }

  /** A settlement's outcome is its last answer's, once the file is replaced; other answers leave it waiting. */
  predicate SettlesAsAnswered(asks: seq<Exchange>, pending: Key, commit: Commit, r: Result<Outcome, RotationFailure>) {
    && (commit.Persisted? && EndsConfirmed(asks, pending) ==> r == Success(Rotated))
    && (commit.Persisted? && EndsRefused(asks) ==> r == Success(Abandoned))
    && (!EndsConfirmed(asks, pending) && !EndsRefused(asks) <==> r == Success(Waiting))
    && (r.Failure? ==> !commit.Persisted?)
  }

  /** A configured record may begin a rotation to another key. */
  predicate CanBegin(data: Record, newKey: Key) {
    data.verdict == Configured && newKey != data.signingKey
  }

  /** Team is asked for the new key in turn, and its answer decides the outcome. */
  predicate CarriesOut(asks: seq<Exchange>, current: Key, newKey: Key, commit: Commit,
                       r: Result<Outcome, RotationFailure>)
  {
    AsksInTurn(asks, current, newKey) && SettlesAsAnswered(asks, newKey, commit, r)
  }

  /** Team's last answer decides nothing, so the key stays pending. */
  predicate LeavesOpen(asks: seq<Exchange>, pending: Key) {
    asks != [] && !EndsConfirmed(asks, pending) && !EndsRefused(asks)
  }

  /**
  The first `n` requests settle the rotation that was open. It is the outcome when Team confirmed it or left it open;
  when Team refused it, the requests after those carry the new rotation out.
  */
  predicate SettlesFirst(asks: seq<Exchange>, n: nat, before: Record, newKey: Key, commits: (Commit, Commit, Commit),
                         r: Result<Outcome, RotationFailure>)
    requires before.pendingKey.Some?
  {
    && n <= |asks| && AsksInTurn(asks[..n], before.signingKey, before.pendingKey.value)
    && (commits.0.Persisted? && EndsConfirmed(asks[..n], before.pendingKey.value) ==>
          n == |asks| && r == Success(Rotated))
    && (commits.0.Persisted? && commits.1.Persisted? && EndsRefused(asks[..n]) && CanBegin(before, newKey) ==>
          CarriesOut(asks[n..], before.signingKey, newKey, commits.2, r))
    && (LeavesOpen(asks[..n], before.pendingKey.value) ==> n == |asks| && r == Success(Waiting))
    && (r == Success(Waiting) ==> LeavesOpen(asks, if n == |asks| then before.pendingKey.value else newKey))
  }

  /** Admin's store and Team's pin. */
  class Space {
    var data: Record
    var pin: Key
    // Every request Team was sent, each with its answer.
    ghost var asked: seq<Exchange>

    constructor (data: Record, pin: Key)
      ensures this.data == data && this.pin == pin && asked == []
    {
      this.data, this.pin, asked := data, pin, [];
    }

    method AskTeam(signer: Key, pending: Key, team: TeamBehaviour) returns (reply: Reply)
      modifies this`pin, this`asked
      ensures (pin, reply) == team(old(pin), Request(signer, pending))
      ensures asked == old(asked) + [Exchange(Request(signer, pending), reply)]
    {
      var (pinAfter, answer) := team(pin, Request(signer, pending));
      pin, reply := pinAfter, answer;
      asked := asked + [Exchange(Request(signer, pending), reply)];
    }

    /** Settles only the pending key it names: it becomes the current key or is dropped, and none stays pending. */
    method Settle(pending: Key, adopt: bool, commit: Commit) returns (r: Result<Outcome, RotationFailure>)
      modifies this`data
      ensures data.verdict == old(data).verdict && data.supervisorId == old(data).supervisorId
      ensures old(data).pendingKey != Some(pending) ==> r == Failure(Busy) && data == old(data)
      ensures data != old(data) ==>
        && commit in {Unconfirmed, Persisted} && data.pendingKey.None?
        && data.signingKey == if adopt then pending else old(data).signingKey
      ensures old(data).pendingKey == Some(pending) && commit in {Unconfirmed, Persisted} ==> data.pendingKey.None?
      ensures r.Success? <==> old(data).pendingKey == Some(pending) && commit.Persisted?
      ensures r.Success? ==> r.value == if adopt then Rotated else Abandoned
      ensures r.Failure? && old(data).pendingKey == Some(pending) ==> r == Failure(Unavailable)
    {
      var (after, settled) := Transact(data, SettleUpdate(data, pending, adopt), true, commit);
      data := after;
      r := match settled
           case Success(_) => Success(if adopt then Rotated else Abandoned)
           case Failure(error) => Failure(FailureOf(error));
    }

    /**
    Settles the open rotation with Team's answer. Whatever Team answers within its rules, no key it may pin is dropped;
    a settled outcome leaves one key, the one Team pins; and an answering Team settles it at once.
    */
    method Resolve(team: TeamBehaviour, commit: Commit) returns (r: Result<Outcome, RotationFailure>)
      requires Lawful(team)
      modifies this
      ensures old(Pinned(data, pin)) ==> Pinned(data, pin)
      ensures r == Success(NoRotation) <==> old(data).pendingKey.None?
      ensures r == Success(NoRotation) ==> data == old(data) && pin == old(pin)
      ensures r == Success(Rotated) ==>
                old(data).pendingKey == Some(pin) && data == old(data).(signingKey := pin, pendingKey := None)
      ensures r == Success(Abandoned) ==>
                data == old(data).(pendingKey := None) && (old(Pinned(data, pin)) ==> pin == data.signingKey)
      ensures r == Success(Waiting) ==> data == old(data)
      ensures r.Failure? ==> r.error == Unavailable && (data == old(data) || commit.Unconfirmed?)
      ensures data != old(data) ==> data.pendingKey.None?
      ensures data.pendingKey.None? && r == Success(Abandoned) ==> data.signingKey == old(data).signingKey
      ensures old(asked) <= asked && (old(data).pendingKey.None? ==> asked == old(asked))
      ensures old(data).pendingKey.Some? && old(data).pendingKey.value != old(data).signingKey ==>
                var asks, pending := asked[|old(asked)|..], old(data).pendingKey.value;
                AsksInTurn(asks, old(data).signingKey, pending) && SettlesAsAnswered(asks, pending, commit, r)
      ensures old(data).pendingKey == Some(old(data).signingKey) ==>
                r == Failure(Unavailable) && asked == old(asked) && data == old(data)
      ensures old(Pinned(data, pin)) && Answering(team) && commit.Persisted? && old(data).pendingKey.Some? ==>
                data.pendingKey.None? && r in {Success(Rotated), Success(Abandoned)}
    {
      var saved := PendingKey(data);
      if saved.Failure? {
        return Failure(FailureOf(saved.error));
      }
      if saved.value.None? {
        return Success(NoRotation);
      }
      var pending := saved.value.value;
      var current := data.signingKey;
      ghost var pinned := pin;
      var first := AskTeam(current, pending, team);
      AnswerDecides(pinned, current, pending, current, pin, first);
      var decided := Switched(first, pending);
      if AsksAgain(first, pending) {
        // A refusal of the current key may only mean that Team switched before, so the pending key asks for itself.
        pinned := pin;
        var second := AskTeam(pending, pending, team);
        AnswerDecides(pinned, current, pending, pending, pin, second);
        decided := Switched(second, pending);
      }
      match decided
      case None => r := Success(Waiting);
      case Some(adopt) => r := Settle(pending, adopt, commit);
    }

    /** Saves a new key beside the current one and asks Team for it. */
    method Begin(newKey: Key, team: TeamBehaviour, begin: Commit, settle: Commit)
      returns (r: Result<Outcome, RotationFailure>)
      requires Pinned(data, pin) && Lawful(team) && data.pendingKey.None?
      modifies this
      ensures Pinned(data, pin) && old(asked) <= asked
      ensures r == Success(Rotated) ==> data.pendingKey.None? && data.signingKey == pin == newKey
      ensures r == Success(Abandoned) ==> data.pendingKey.None? && data.signingKey == pin == old(data).signingKey
      ensures r != Success(NoRotation)
      ensures r == Failure(Busy) ==> !CanBegin(old(data), newKey) && data == old(data)
      ensures data.pendingKey.Some? ==> data.pendingKey == Some(newKey) && data.signingKey == old(data).signingKey
      ensures CanBegin(old(data), newKey) && begin.Persisted? ==>
                && CarriesOut(asked[|old(asked)|..], old(data).signingKey, newKey, settle, r)
                && (settle.Persisted? && Answering(team) ==>
                      data.pendingKey.None? && r in {Success(Rotated), Success(Abandoned)})
      ensures !(CanBegin(old(data), newKey) && begin.Persisted?) ==> r.Failure? && asked == old(asked)
    {
      var (saved, begun) := Transact(data, BeginUpdate(data, LocalIdentity(data.supervisorId, newKey)), true, begin);
      data := saved;
      if begun.Failure? {
        return Failure(FailureOf(begun.error));
      }
      r := Resolve(team, settle);
    }

    /** Settles an open rotation first; only when none stays open is the new one begun. */
    method Rotate(newKey: Key, before: TeamBehaviour, after: TeamBehaviour, commits: (Commit, Commit, Commit))
      returns (r: Result<Outcome, RotationFailure>)
      requires Pinned(data, pin) && Lawful(before) && Lawful(after)
      modifies this
      ensures Pinned(data, pin) && old(asked) <= asked
      ensures r == Success(Rotated) ==>
                data.pendingKey.None? && data.signingKey == pin && (pin == newKey || old(data).pendingKey == Some(pin))
      ensures r == Success(Abandoned) ==> data.pendingKey.None? && data.signingKey == pin
      ensures old(data).pendingKey.None? && r == Success(Rotated) ==> pin == newKey
      ensures old(data).pendingKey.None? && r == Success(Abandoned) ==> pin == old(data).signingKey
      ensures r != Success(NoRotation)
      ensures r == Failure(Busy) ==> data.verdict != Configured || data.signingKey == newKey
      ensures
        old(data).pendingKey.Some? && data.pendingKey == old(data).pendingKey && newKey != data.pendingKey.value ==>
        && data == old(data)
        && forall i | |old(asked)| <= i < |asked| :: asked[i].request.named == old(data).pendingKey.value
      ensures data.pendingKey.Some? && data.pendingKey != old(data).pendingKey ==>
        data.pendingKey == Some(newKey) && data.signingKey == old(data).signingKey
      // The rotation asked for is carried out: the new key is saved and Team is asked for it.
      ensures old(data).pendingKey.None? && CanBegin(old(data), newKey) && commits.1.Persisted? ==>
                && CarriesOut(asked[|old(asked)|..], old(data).signingKey, newKey, commits.2, r)
                && (commits.2.Persisted? && Answering(after) ==>
                      data.pendingKey.None? && r in {Success(Rotated), Success(Abandoned)})
      // An open one is settled first; once it is given up, the new one is carried out all the same.
      ensures old(data).pendingKey.Some? ==>
                exists n :: SettlesFirst(asked[|old(asked)|..], n, old(data), newKey, commits, r)
      ensures old(data).pendingKey.None? && r == Success(Waiting) ==> LeavesOpen(asked[|old(asked)|..], newKey)
    {
      var outcome := Resolve(before, commits.0);
      ghost var first := asked[|old(asked)|..];
      assert first[..|first|] == first && first[|first|..] == [];
      if outcome.Failure? || outcome.value in {Rotated, Waiting} {
        assert SettlesFirst(first, |first|, old(data), newKey, commits, outcome);
        return outcome;
      }
      assert outcome.value.NoRotation? || outcome.value.Abandoned?;
      ghost var settled := asked;
      r := Begin(newKey, after, commits.1, commits.2);
      GrownAfter(settled, asked, |old(asked)|);
      ghost var all := asked[|old(asked)|..];
      assert old(data).pendingKey.Some? ==> SettlesFirst(all, |first|, old(data), newKey, commits, r);
    }

    /** With an answering Team one settlement ends the rotation, and a repeat finds none open. */
    method ResolveAgain(team: TeamBehaviour, later: TeamBehaviour) returns (second: Result<Outcome, RotationFailure>)
      requires Pinned(data, pin) && Lawful(team) && Answering(team) && Lawful(later)
      modifies this
      ensures second == Success(NoRotation)
      ensures data.pendingKey.None? && data.signingKey == pin
    {
      var _ := Resolve(team, Persisted);
      second := Resolve(later, Persisted);
    }
  }
}
