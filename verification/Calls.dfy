/** A socket's calls: what admits one, what it is refused for, and the one result frame each is answered with. */
module Calls {
  import Budget
  import opened Frames
  import opened Lists
  import opened Outbound
  import opened Topics
  import opened Wrappers

  const BAD_GATEWAY: nat := 502

  datatype Reason = CallBudget | ChangeBudget | InFlight

  /** How a call frame is taken: a protocol violation, an ended authority, a refusal, or a started call. */
  datatype Taken = DuplicateId | Unauthorized | Refused(reason: Reason) | Started

  /** How a method ended: its reply, or nothing to answer. */
  datatype Outcome = Closed | Replied(status: nat)

  predicate IsSuccess(status: nat) {
    200 <= status < 300
  }

  /**
  Asks both budgets for one call. What the change budget refuses has been spent of the call budget all the same; what
  the call budget refuses has been spent of neither.
  */
  method Admission(calls: Budget.Budget, changes: Budget.Budget, session: string, isChange: bool, now: int, later: int)
    returns (refused: Option<Reason>)
    requires calls != changes && calls.Valid() && changes.Valid()
    requires calls.clock <= now <= later && changes.clock <= later
    modifies calls, changes
    ensures calls.Valid() && changes.Valid()
    ensures refused == Some(CallBudget) <==> Budget.Spent(old(calls.log), session, now) >= calls.limit
    ensures refused == Some(CallBudget) ==> calls.log == old(calls.log) && changes.log == old(changes.log)
    ensures refused != Some(CallBudget) ==> calls.log == old(calls.log) + [Budget.Event(session, now)]
    ensures refused == Some(ChangeBudget) <==>
            && refused != Some(CallBudget) && isChange
            && Budget.Spent(old(changes.log), session, later) >= changes.limit
    ensures changes.log == if refused.None? && isChange then old(changes.log) + [Budget.Event(session, later)]
                           else old(changes.log)
    ensures refused != Some(InFlight)
  {
    var admitted := calls.Admit(session, now);
    if !admitted {
      return Some(CallBudget);
    }
    if isChange {
      admitted := changes.Admit(session, later);
      if !admitted {
        return Some(ChangeBudget);
      }
    }
    return None;
  }

  /** The calls of one socket that have no result yet. */
  class InFlightCalls {
    var ids: set<string>

    ghost predicate Valid()
      reads this
    {
      |ids| <= MAX_IN_FLIGHT
    }

    constructor ()
      ensures Valid() && ids == {}
    {
      ids := {};
    }

    /** Takes one call: an id still in flight ends the socket, and beyond sixteen calls nothing starts. */
    method Take(id: string, authorized: bool, refused: Option<Reason>) returns (taken: Taken)
      requires Valid()
      modifies this
      ensures Valid() && ids == if taken.Started? then old(ids) + {id} else old(ids)
      ensures taken == if id in old(ids) then DuplicateId
                       else if !authorized then Unauthorized
                       else if refused.Some? then Taken.Refused(refused.value)
                       else if |old(ids)| >= 16 then Taken.Refused(InFlight) else Started
    {
      if id in ids {
        return DuplicateId;
      }
      if !authorized {
        return Unauthorized;
      }
      var reason := refused;
      if reason.None? && |ids| >= MAX_IN_FLIGHT {
        reason := Some(InFlight);
      }
      if reason.Some? {
        return Taken.Refused(reason.value);
      }
      ids := ids + {id};
      return Started;
    }

    method End(id: string)
      requires Valid()
      modifies this
      ensures Valid() && ids == old(ids) - {id}
    {
      ids := ids - {id};
    }
  }

  /**
  The one frame a call is answered with. A result that fits carries the reply's status, and its revision exactly when
  that status is a success; what does not fit is told as a failure of Admin's, with no revision.
  */
  predicate Answers(item: Item<Kind>, id: string, status: nat, revision: Option<Revision>, fits: bool) {
    && item.topic.None? && item.frame.Answer? && item.frame.id == id
    && item.frame.status == (if fits then status else 502)
    && (fits && 200 <= status < 300 ==> item.frame.reflects == revision)
    && (!fits || status < 200 || status >= 300 ==> item.frame.reflects.None?)
  }

  /** Puts the one result frame of a call last in the queue, or none when there is nothing to answer. */
  method SendResult(socket: Socket, id: string, revision: Option<Revision>, outcome: Outcome, size: nat,
                    failureSize: nat)
    requires socket.Valid() && failureSize <= socket.maxFrame
    modifies socket, socket.outbound
    ensures socket.Valid() && socket.subscriptions == old(socket.subscriptions)
    ensures old(socket.outbound.closed) ==> socket.outbound.closed
    ensures outcome.Closed? || old(socket.outbound.closed) ==> socket.outbound.items == old(socket.outbound.items)
    ensures outcome.Replied? && !old(socket.outbound.closed) ==>
              && |socket.outbound.items| == |old(socket.outbound.items)| + 1
              && socket.outbound.items[..|old(socket.outbound.items)|] == old(socket.outbound.items)
              && var item, fits := Last(socket.outbound.items), size <= socket.maxFrame;
                Answers(item, id, outcome.status, revision, fits) && item.size == if fits then size else failureSize
  {
    if outcome.Closed? {
      return;
    }
    var frame := Frame(Kind.Answer(id, outcome.status, if IsSuccess(outcome.status) then revision else None), size);
    if size > socket.maxFrame {
      frame := Frame(Kind.Answer(id, BAD_GATEWAY, None), failureSize);
    }
    var _ := socket.Send(frame, None);
  }

  function Raises(topics: seq<string>, topic: string): nat {
    if topics == [] then 0
    else Raises(topics[..|topics| - 1], topic) + (if topics[|topics| - 1] == topic then 1 else 0)
  }

  /** Other threads raise topics, one after the other. */
  method RaiseAll(topics: Topics, raised: seq<string>, noticeSize: nat)
    requires topics.Valid()
    modifies topics`revisions, topics.listeners.Values, Queues(topics.listeners)
    ensures topics.Valid() && topics.listeners == old(topics.listeners)
    ensures forall topic :: topics.Revision(topic) == old(topics.Revision(topic)) + Raises(raised, topic)
  {
    for i := 0 to |raised|
      invariant topics.Valid() && topics.listeners == old(topics.listeners)
      invariant forall topic :: topics.Revision(topic) == old(topics.Revision(topic)) + Raises(raised[..i], topic)
    {
      assert raised[..i + 1][..i] == raised[..i];
      var _ := topics.Raise(raised[i], true, noticeSize);
    }
    assert raised[..|raised|] == raised;
  }

  /**
  Runs one read while other threads raise topics: its result carries the revision its topic had before the first of
  those raises, so the topic's revision ends above the result's by exactly the raises the read may have missed.
  */
  method Run(socket: Socket, topics: Topics, id: string, topic: string, meanwhile: seq<string>, noticeSize: nat,
             outcome: Outcome, size: nat, failureSize: nat) returns (sampled: Revision, lost: bool)
    requires topics.Valid() && socket in topics.listeners.Values && failureSize <= socket.maxFrame
    modifies topics`revisions, topics.listeners.Values, Queues(topics.listeners)
    ensures topics.Valid() && sampled == Revision(topic, old(topics.Revision(topic)))
    ensures forall other :: topics.Revision(other) == old(topics.Revision(other)) + Raises(meanwhile, other)
    ensures lost ==> socket.outbound.closed
    ensures outcome.Replied? && !lost ==>
              && socket.outbound.items != []
              && Answers(Last(socket.outbound.items), id, outcome.status, Some(sampled), size <= socket.maxFrame)
  {
    sampled := Revision(topic, topics.Revision(topic));
    RaiseAll(topics, meanwhile, noticeSize);
    lost := socket.outbound.closed;
    SendResult(socket, id, Some(sampled), outcome, size, failureSize);
  }
}
