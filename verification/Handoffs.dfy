/**
One-use browser handoffs for OAuth completion. Each call is one step that reads the clock once, perhaps before it takes
the store's lock, so the readings need not come in order.
*/
module Handoffs {
  import opened Lists
  import opened Wrappers

  const HANDOFF_TTL_MS: int := 600_000
  const HANDOFF_CAPACITY: nat := 256
  const TOKEN_CHARS: nat := 64

  type Token = string

  datatype Mode = Loopback | LocalDomain | OutOfBand

  /** Whose flow a handoff serves. A session stands for its digest. */
  datatype Binding = Binding(team: string, challenge: string, session: string)

  datatype Pending = Pending(
    binding: Binding, callback: string, mode: Mode, url: Option<string>, state: Option<string>, expiresAt: int)

  datatype Error =
    | InvalidArgument | CapacityReached | AlreadyPending | Unavailable | InvalidUrl | CompletionUnavailable

  datatype Preparation = Preparation(token: Token, callback: string)
  datatype Handoff = Handoff(url: string, callback: string, mode: Mode)
  datatype Completion = Completion(state: string, claim: string, callback: string)

  predicate IsToken(token: string) {
    |token| == TOKEN_CHARS && forall c <- token :: '0' <= c <= '9' || 'a' <= c <= 'f'
  }

  // ---- The whole history ----

  /** Why a handoff left, and the clock reading that decided it; discarding reads no clock. */
  datatype Reason =
    | Expired(at: int) | Consumed(at: int) | Completed(at: int) | Cancelled(at: int) | SignedOut(at: int) | Discarded

  datatype Event =
    | Issued(token: Token, handoff: Pending, at: int)
    | Authorized(token: Token, url: string, state: string, at: int)
    | Left(tokens: set<Token>, why: Reason)

  function Held(log: seq<Event>): map<Token, Pending> {
    if log == [] then map[]
    else
      var held := Held(Before(log));
      match Last(log)
      case Issued(token, handoff, _) => held[token := handoff]
      case Authorized(token, url, state, _) =>
        if token in held then held[token := held[token].(url := Some(url), state := Some(state))] else held
      case Left(tokens, _) => held - tokens
  }

  /**
  A token is issued for ten minutes while none like it is held, is authorized once at most, and leaves only while held:
  an expiry takes everything whose time is over, and nothing else happens to a handoff from then on.
  */
  ghost predicate Lawful(log: seq<Event>) {
    log == []
    || (Lawful(Before(log))
        && var held := Held(Before(log));
          match Last(log)
          case Issued(token, handoff, at) =>
            token !in held && handoff.url.None? && handoff.state.None? && handoff.expiresAt == at + 600_000
          case Authorized(token, _, _, at) => token in held && held[token].url.None? && at < held[token].expiresAt
          case Left(tokens, why) => tokens <= held.Keys && LeavesFor(held, tokens, why))
  }

  predicate LeavesFor(held: map<Token, Pending>, tokens: set<Token>, why: Reason)
    requires tokens <= held.Keys
  {
    match why
    case Expired(at) => forall token <- held :: token in tokens <==> held[token].expiresAt <= at
    case Discarded => true
    case _ => forall token <- tokens :: why.at < held[token].expiresAt
  }

  function Issues(log: seq<Event>, token: Token): nat {
    if log == [] then 0
    else Issues(Before(log), token) + (if Last(log).Issued? && Last(log).token == token then 1 else 0)
  }

  function Leavings(log: seq<Event>, token: Token): nat {
    if log == [] then 0
    else Leavings(Before(log), token) + (if Last(log).Left? && token in Last(log).tokens then 1 else 0)
  }

  function Authorizations(log: seq<Event>, token: Token): nat {
    if log == [] then 0
    else Authorizations(Before(log), token) + (if Last(log).Authorized? && Last(log).token == token then 1 else 0)
  }

  /** Each issued handoff is held still or left the store, and exactly once. */
  lemma {:induction false} LeavesExactlyOnce(log: seq<Event>, token: Token)
    requires Lawful(log)
    ensures Issues(log, token) == Leavings(log, token) + (if token in Held(log) then 1 else 0)
  {
    if log != [] {
      LeavesExactlyOnce(Before(log), token);
    }
  }

  /** Each issued handoff is authorized at most once, and one held unauthorized was not yet. */
  lemma {:induction false} AuthorizedAtMostOnce(log: seq<Event>, token: Token)
    requires Lawful(log)
    ensures Authorizations(log, token) <= Issues(log, token)
    ensures token in Held(log) && Held(log)[token].url.None? ==> Authorizations(log, token) < Issues(log, token)
  {
    if log != [] {
      AuthorizedAtMostOnce(Before(log), token);
    }
  }

  /** What a prefix of a lawful log holds, and that the event after it was lawful. */
  lemma {:induction false} PrefixLawful(log: seq<Event>, n: nat)
    requires Lawful(log) && n <= |log|
    ensures Lawful(log[..n])
    ensures n < |log| ==> Lawful(log[..n + 1]) && Before(log[..n + 1]) == log[..n] && Last(log[..n + 1]) == log[n]
    decreases |log|
  {
    if n < |log| {
      assert Before(log)[..n] == log[..n];
      PrefixLawful(Before(log), n);
      if n + 1 < |log| {
        assert Before(log)[..n + 1] == log[..n + 1];
      } else {
        assert log[..n + 1] == log;
      }
    } else {
      assert log[..n] == log;
    }
  }

  /** A handoff that left otherwise than expired or discarded, or was authorized, still had time. */
  predicate InTime(event: Event, expiresAt: int) {
    match event
    case Authorized(_, _, _, at) => at < expiresAt
    case Left(_, why) => why.Discarded? || (if why.Expired? then expiresAt <= why.at else why.at < expiresAt)
    case Issued(_, _, _) => true
  }

  /** Whether the event concerns the token. */
  predicate Concerns(event: Event, token: Token) {
    match event
    case Issued(other, _, _) => other == token
    case Authorized(other, _, _, _) => other == token
    case Left(tokens, _) => token in tokens
  }

  /**
  From its issue on a handoff is held until it leaves: for another reason, or with the first expiry read ten minutes
  later; and it is never authorized, or released, on a reading from then on.
  */
  lemma {:induction false} HeldForItsTime(log: seq<Event>, i: nat, j: nat, token: Token)
    requires Lawful(log) && i < j <= |log| && log[i].Issued? && log[i].token == token
    requires forall k | i < k < j && Concerns(log[k], token) :: !log[k].Left?
    ensures token in Held(log[..j]) && Held(log[..j])[token].expiresAt == log[i].at + 600_000
    ensures forall k | i < k < j && log[k].Left? && log[k].why.Expired? :: log[k].why.at < log[i].at + 600_000
    ensures j < |log| && Concerns(log[j], token) && !log[j].Issued? ==> InTime(log[j], log[i].at + 600_000)
  {
    PrefixLawful(log, j - 1);
    if i < j - 1 {
      HeldForItsTime(log, i, j - 1, token);
    }
    PrefixLawful(log, j);
  }

  // ---- What is kept of it ----

  /** A session's challenge of one Team has one handoff at most. */
  ghost predicate OnePerBinding(pending: map<Token, Pending>) {
    forall one <- pending, other <- pending :: pending[one].binding == pending[other].binding ==> one == other
  }

  ghost predicate Represents(pending: map<Token, Pending>, log: seq<Event>) {
    && pending == Held(log) && Lawful(log) && OnePerBinding(pending) && |pending| <= HANDOFF_CAPACITY
    && forall token <- pending ::
      IsToken(token) && (pending[token].url.Some? <==> pending[token].state.Some?)
  }

  function ExpiredTokens(pending: map<Token, Pending>, now: int): set<Token> {
    set token | token in pending && pending[token].expiresAt <= now
  }

  function Live(pending: map<Token, Pending>, now: int): map<Token, Pending> {
    pending - ExpiredTokens(pending, now)
  }

  /** Exactly those whose time is not over stay, as they are. */
  lemma LiveHaveTime(pending: map<Token, Pending>, now: int, token: Token)
    ensures token in Live(pending, now) <==> token in pending && now < pending[token].expiresAt
    ensures token in Live(pending, now) ==> Live(pending, now)[token] == pending[token]
  {
  }

  function WithLeft(log: seq<Event>, tokens: set<Token>, why: Reason): seq<Event> {
    if tokens == {} then log else log + [Left(tokens, why)]
  }

  /** The history once expired handoffs have left. */
  function Passed(log: seq<Event>, now: int): seq<Event> {
    WithLeft(log, ExpiredTokens(Held(log), now), Expired(now))
  }

  predicate IsPending(pending: map<Token, Pending>, binding: Binding) {
    exists token <- pending :: pending[token].binding == binding
  }

  function Unauthorized(binding: Binding, callback: string, mode: Mode, now: int): Pending {
    Pending(binding, callback, mode, None, None, now + HANDOFF_TTL_MS)
  }

  /** How a reservation is answered. */
  function Reserved(live: map<Token, Pending>, binding: Binding, token: Token, callback: string)
    : Result<Preparation, Error>
  {
    if |live| >= HANDOFF_CAPACITY then Failure(CapacityReached)
    else if IsPending(live, binding) then Failure(AlreadyPending)
    else Success(Preparation(token, callback))
  }

  /** Whether `select` takes this handoff. */
  predicate Selects(handoff: Pending, binding: Binding, outOfBand: bool) {
    && handoff.binding == binding
    && (outOfBand ==> handoff.mode.OutOfBand? && handoff.url.Some? && handoff.state.Some?)
  }

  lemma FewerPending(pending: map<Token, Pending>, tokens: set<Token>)
    ensures |pending - tokens| <= |pending|
  {
    var all, left := pending.Keys, (pending - tokens).Keys;
    assert left == all - tokens;
    assert all == left + (all - left);
  }

  lemma LeftIsRepresented(pending: map<Token, Pending>, log: seq<Event>, tokens: set<Token>, why: Reason)
    requires Represents(pending, log) && tokens <= pending.Keys && LeavesFor(pending, tokens, why)
    ensures Represents(pending - tokens, WithLeft(log, tokens, why))
  {
    FewerPending(pending, tokens);
    if tokens == {} {
      assert pending - tokens == pending;
    } else {
      assert Before(log + [Left(tokens, why)]) == log;
    }
  }

  lemma IssuedIsRepresented(pending: map<Token, Pending>, log: seq<Event>, token: Token, handoff: Pending, now: int)
    requires Represents(pending, log) && |pending| < HANDOFF_CAPACITY && IsToken(token) && token !in pending
    requires !IsPending(pending, handoff.binding) && handoff.url.None? && handoff.state.None?
    requires handoff.expiresAt == now + 600_000
    ensures Represents(pending[token := handoff], log + [Issued(token, handoff, now)])
  {
    assert Before(log + [Issued(token, handoff, now)]) == log;
    assert pending[token := handoff].Keys == pending.Keys + {token};
  }

  lemma AuthorizedIsHeld(log: seq<Event>, token: Token, url: string, state: string, now: int)
    requires Lawful(log) && token in Held(log) && Held(log)[token].url.None? && now < Held(log)[token].expiresAt
    ensures var longer := log + [Authorized(token, url, state, now)];
      && Held(longer) == Held(log)[token := Held(log)[token].(url := Some(url), state := Some(state))]
      && Lawful(longer)
  {
    assert Before(log + [Authorized(token, url, state, now)]) == log;
  }

  /** Another state of one handoff changes no binding. */
  lemma ChangedKeepsBindings(pending: map<Token, Pending>, token: Token, handoff: Pending)
    requires OnePerBinding(pending) && token in pending && handoff.binding == pending[token].binding
    ensures OnePerBinding(pending[token := handoff]) && |pending[token := handoff]| == |pending|
  {
    var next := pending[token := handoff];
    assert next.Keys == pending.Keys && forall one <- next :: next[one].binding == pending[one].binding;
  }

  lemma AuthorizedIsRepresented(pending: map<Token, Pending>, log: seq<Event>, token: Token, url: string, state: string,
                                now: int)
    requires Represents(pending, log) && token in pending && pending[token].url.None? && now < pending[token].expiresAt
    ensures Represents(pending[token := pending[token].(url := Some(url), state := Some(state))],
                       log + [Authorized(token, url, state, now)])
  {
    AuthorizedIsHeld(log, token, url, state, now);
    ChangedKeepsBindings(pending, token, pending[token].(url := Some(url), state := Some(state)));
  }

  /** At most one handoff answers a selection, so which one is taken does not depend on the map's order. */
  lemma SelectionIsUnique(
      pending: map<Token, Pending>, log: seq<Event>, binding: Binding, one: Token, other: Token, outOfBand: bool)
    requires Represents(pending, log) && one in pending && other in pending
    requires Selects(pending[one], binding, outOfBand) && Selects(pending[other], binding, outOfBand)
    ensures one == other
  {
  }

  class Handoffs {
    var pending: map<Token, Pending>
    // Everything that happened to every handoff.
    ghost var log: seq<Event>

    ghost predicate Valid()
      reads this
    {
      Represents(pending, log)
    }

    constructor ()
      ensures Valid() && log == []
    {
      pending, log := map[], [];
    }

    method Expire(now: int)
      requires Valid()
      modifies this
      ensures Valid() && log == Passed(old(log), now) && pending == Live(old(pending), now)
    {
      var expired := ExpiredTokens(pending, now);
      LeftIsRepresented(pending, log, expired, Expired(now));
      pending, log := pending - expired, WithLeft(log, expired, Expired(now));
    }

    method Remove(tokens: set<Token>, ghost why: Reason)
      requires Valid() && tokens <= pending.Keys && LeavesFor(pending, tokens, why)
      modifies this
      ensures Valid() && log == WithLeft(old(log), tokens, why) && pending == old(pending) - tokens
    {
      LeftIsRepresented(pending, log, tokens, why);
      pending, log := pending - tokens, WithLeft(log, tokens, why);
    }

    /** Reserves a handoff in a store that holds no expired one. */
    method Reserve(binding: Binding, mode: Mode, token: Token, callback: string, now: int)
      returns (issued: Result<Preparation, Error>)
      requires Valid() && IsToken(token) && token !in pending
      modifies this
      ensures Valid()
      ensures issued == Reserved(old(pending), binding, token, callback)
      ensures log == old(log) +
                     if issued.Failure? then [] else [Issued(token, Unauthorized(binding, callback, mode, now), now)]
    {
      if |pending| >= HANDOFF_CAPACITY {
        return Failure(CapacityReached);
      }
      if IsPending(pending, binding) {
        return Failure(AlreadyPending);
      }
      var handoff := Unauthorized(binding, callback, mode, now);
      IssuedIsRepresented(pending, log, token, handoff, now);
      pending, log := pending[token := handoff], log + [Issued(token, handoff, now)];
      return Success(Preparation(token, callback));
    }

    /**
    Reserves one handoff under a drawn token that none holds, unless the store is full or one is pending for this
    session, Team and challenge.
    */
    method Issue(checked: Option<Binding>, mode: Mode, token: Token, callback: string, now: int)
      returns (issued: Result<Preparation, Error>)
      requires Valid() && IsToken(token) && token !in Live(pending, now)
      modifies this
      ensures Valid()
      ensures checked.None? ==> issued == Failure(InvalidArgument) && log == old(log)
      ensures checked.Some? ==>
                var live := Live(old(pending), now);
                && issued == (if |live| >= 256 then Failure(CapacityReached)
                              else if exists other <- live :: live[other].binding == checked.value
                              then Failure(AlreadyPending) else Success(Preparation(token, callback)))
                && log == Passed(old(log), now)
                          + if issued.Failure? then []
                            else [Issued(token, Pending(checked.value, callback, mode, None, None, now + 600_000), now)]
    {
      if checked.None? {
        return Failure(InvalidArgument);
      }
      Expire(now);
      issued := Reserve(checked.value, mode, token, callback, now);
    }

    method Publish(token: Token, url: string, state: string, ghost now: int)
      requires Valid() && token in pending && pending[token].url.None? && now < pending[token].expiresAt
      modifies this
      ensures Valid() && log == old(log) + [Authorized(token, url, state, now)]
    {
      AuthorizedIsRepresented(pending, log, token, url, state, now);
      pending := pending[token := pending[token].(url := Some(url), state := Some(state))];
      log := log + [Authorized(token, url, state, now)];
    }

    /** Publishes one redirect for a handoff that has none; `state` is what a valid redirect carries. */
    method Authorize(token: string, url: string, state: Option<string>, now: int)
      returns (authorized: Result<(), Error>)
      requires Valid()
      modifies this
      ensures Valid()
      ensures !IsToken(token) ==> authorized == Failure(Unavailable) && log == old(log)
      ensures IsToken(token) ==>
                var live := Live(old(pending), now);
                && authorized == (if token !in live || live[token].url.Some? then Failure(Unavailable)
                                  else if state.None? then Failure(InvalidUrl) else Success(()))
                && log == Passed(old(log), now)
                          + if authorized.Failure? then [] else [Authorized(token, url, state.value, now)]
    {
      if !IsToken(token) {
        return Failure(Unavailable);
      }
      Expire(now);
      if token !in pending || pending[token].url.Some? {
        return Failure(Unavailable);
      }
      if state.None? {
        return Failure(InvalidUrl);
      }
      Publish(token, url, state.value, now);
      return Success(());
    }

    /** Takes one handoff out, whatever it is, and releases its redirect only if it was authorized for this mode. */
    method Consume(token: string, mode: Option<Mode>, now: int) returns (consumed: Result<Handoff, Error>)
      requires Valid()
      modifies this
      ensures Valid()
      ensures !IsToken(token) || mode.None? || mode.value.OutOfBand? ==>
                && consumed == Failure(if IsToken(token) && mode.None? then InvalidArgument else Unavailable)
                && log == old(log)
      ensures IsToken(token) && mode.Some? && !mode.value.OutOfBand? ==>
                var live := Live(old(pending), now);
                && log == WithLeft(Passed(old(log), now), if token in live then {token} else {}, Consumed(now))
                && consumed == if token in live && live[token].url.Some? && live[token].mode == mode.value
                               then Success(Handoff(live[token].url.value, live[token].callback, mode.value))
                               else Failure(Unavailable)
    {
      if !IsToken(token) || mode.None? || mode.value.OutOfBand? {
        return Failure(if IsToken(token) && mode.None? then InvalidArgument else Unavailable);
      }
      Expire(now);
      if token !in pending {
        return Failure(Unavailable);
      }
      var handoff := pending[token];
      Remove({token}, Consumed(now));
      if handoff.url.Some? && handoff.mode == mode.value {
        return Success(Handoff(handoff.url.value, handoff.callback, handoff.mode));
      }
      return Failure(Unavailable);
    }

    /** Some handoff the selection takes; there is never a second one. */
    method Select(binding: Binding, outOfBand: bool) returns (token: Option<Token>)
      requires Valid()
      ensures token.Some? ==> token.value in pending && Selects(pending[token.value], binding, outOfBand)
      ensures token.None? ==> forall other <- pending :: !Selects(pending[other], binding, outOfBand)
      ensures token.Some? ==>
                forall other <- pending :: Selects(pending[other], binding, outOfBand) ==> other == token.value
    {
      var taken := set token | token in pending && Selects(pending[token], binding, outOfBand);
      if taken == {} {
        assert forall other <- pending :: Selects(pending[other], binding, outOfBand) ==> other in taken;
        return None;
      }
      var chosen :| chosen in taken;
      return Some(chosen);
    }

    /**
    Releases the one out-of-band handoff of this session, Team and challenge exactly when its stored state is the code's
    state; any other code leaves it pending.
    */
    method Complete(checked: Option<Binding>, code: Option<(string, string)>, now: int)
      returns (completed: Result<Completion, Error>)
      requires Valid()
      modifies this
      ensures Valid()
      ensures checked.None? || code.None? ==> completed == Failure(InvalidArgument) && log == old(log)
      ensures checked.Some? && code.Some? ==>
                var live, (state, claim) := Live(old(pending), now), code.value;
                && (completed.Success? <==>
                      exists token <- live ::
                        && live[token].binding == checked.value && live[token].mode.OutOfBand?
                        && live[token].url.Some? && live[token].state == Some(state))
                && (completed.Failure? ==> completed == Failure(CompletionUnavailable) && log == Passed(old(log), now))
                && (completed.Success? ==>
                      exists token <- live ::
                        && live[token].binding == checked.value && live[token].mode.OutOfBand?
                        && live[token].url.Some? && live[token].state == Some(state)
                        && completed.value == Completion(state, claim, live[token].callback)
                        && log == WithLeft(Passed(old(log), now), {token}, Completed(now)))
    {
      if checked.None? || code.None? {
        return Failure(InvalidArgument);
      }
      Expire(now);
      var token := Select(checked.value, true);
      if token.None? || pending[token.value].state != Some(code.value.0) {
        return Failure(CompletionUnavailable);
      }
      var handoff := pending[token.value];
      Remove({token.value}, Completed(now));
      return Success(Completion(code.value.0, code.value.1, handoff.callback));
    }

    /** Removes the one handoff of this session, Team and challenge, if any, and answers its callback binding. */
    method Cancel(checked: Option<Binding>, now: int) returns (cancelled: Result<Option<string>, Error>)
      requires Valid()
      modifies this
      ensures Valid()
      ensures checked.None? ==> cancelled == Failure(InvalidArgument) && log == old(log)
      ensures checked.Some? ==>
                var live := Live(old(pending), now);
                && cancelled.Success?
                && (cancelled.value.Some? <==> exists token <- live :: live[token].binding == checked.value)
                && (cancelled.value.None? ==> log == Passed(old(log), now))
                && (cancelled.value.Some? ==>
                      exists token <- live ::
                        && live[token].binding == checked.value && cancelled.value.value == live[token].callback
                        && log == WithLeft(Passed(old(log), now), {token}, Cancelled(now)))
    {
      if checked.None? {
        return Failure(InvalidArgument);
      }
      Expire(now);
      var token := Select(checked.value, false);
      if token.None? {
        return Success(None);
      }
      var handoff := pending[token.value];
      Remove({token.value}, Cancelled(now));
      return Success(Some(handoff.callback));
    }

    /** A session signed out: its own handoffs leave, and no other. */
    method CancelSession(session: Option<string>, now: int) returns (removed: nat)
      requires Valid()
      modifies this
      ensures Valid()
      ensures session.None? ==> removed == 0 && log == old(log)
      ensures session.Some? ==>
                var live := Live(old(pending), now);
                var theirs := set token | token in live && live[token].binding.session == session.value;
                && removed == |theirs|
                && log == WithLeft(Passed(old(log), now), theirs, SignedOut(now))
                && forall token <- pending :: pending[token].binding.session != session.value
    {
      if session.None? {
        return 0;
      }
      Expire(now);
      var before := |pending|;
      var theirs := OfSession(pending, session.value);
      RemovedCount(pending, theirs);
      Remove(theirs, SignedOut(now));
      return before - |pending|;
    }

    /** Removes one reservation by its token alone. */
    method Discard(token: string) returns (discarded: bool)
      requires Valid()
      modifies this
      ensures Valid() && discarded == (token in old(pending))
      ensures log == WithLeft(old(log), if discarded then {token} else {}, Discarded)
    {
      if !IsToken(token) || token !in pending {
        return false;
      }
      Remove({token}, Discarded);
      return true;
    }
  }

  function OfSession(pending: map<Token, Pending>, session: string): set<Token> {
    set token | token in pending && pending[token].binding.session == session
  }

  lemma RemovedCount(pending: map<Token, Pending>, tokens: set<Token>)
    requires tokens <= pending.Keys
    ensures |pending - tokens| == |pending| - |tokens|
  {
    assert (pending - tokens).Keys == pending.Keys - tokens;
  }
}
