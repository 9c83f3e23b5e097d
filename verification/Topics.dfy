/**
Topics and the session sockets that listen to them: raising a topic advances its revision and queues one coalescing
notice on every open socket that subscribes to it.
*/
module Topics {
  import opened Frames
  import opened Wrappers
  import opened Outbound

  const UNAVAILABLE: nat := 1013

  /** A frame as far as the socket looks into it, with the bytes of its text. */
  datatype Frame = Frame(kind: Kind, size: nat)
  datatype Kind = Changed(topic: string, revision: nat) | Answer(id: string, status: nat, reflects: Option<Revision>)

  /** How recent a read's result is: its topic's number when the read began. */
  datatype Revision = Revision(topic: string, number: nat)

  datatype SendError = Oversized | SocketClosed

  datatype Subscribed = Subscribed(revisions: map<string, nat>) | TooMany

  /** The queue after a change of `topic`, heard or not. */
  function Noticed(items: seq<Item<Kind>>, hears: bool, topic: string, revision: nat, size: nat): seq<Item<Kind>> {
    if hears then PutItem(items, Item(Changed(topic, revision), size, Some(topic))) else items
  }

  class Socket {
    const outbound: Outbound<Kind>
    const maxFrame: nat
    var subscriptions: set<string>
    var closeCode: Option<nat>

    ghost predicate Valid()
      reads this, outbound
    {
      && outbound.Valid()
      && |subscriptions| <= MAX_SUBSCRIPTIONS
      && (closeCode.Some? ==> outbound.closed)
    }

    constructor (limit: nat, maxFrame: nat)
      ensures Valid() && fresh(outbound) && subscriptions == {} && closeCode == None
    {
      outbound := new Outbound<Kind>(limit);
      this.maxFrame := maxFrame;
      subscriptions, closeCode := {}, None;
    }

    /** Ends the socket for a reason, which a later one never replaces; what is queued stays and nothing joins it. */
    method End(code: nat)
      requires Valid()
      modifies this`closeCode, outbound
      ensures Valid() && closeCode == Some(if old(closeCode).Some? then old(closeCode.value) else code)
      ensures outbound.items == old(outbound.items) && outbound.accepted == old(outbound.accepted)
    {
      if closeCode.None? {
        closeCode := Some(code);
      }
      outbound.Close();
    }

    /** Queues one frame; an overflowing queue keeps the frame and closes the socket. */
    method Send(frame: Frame, topic: Option<string>) returns (r: Result<(), SendError>)
      requires Valid()
      modifies this`closeCode, outbound
      ensures Valid()
      ensures old(outbound.closed) ==> outbound.closed
      ensures frame.size > maxFrame ==> r == Failure(Oversized)
      ensures frame.size > maxFrame || old(outbound.closed) ==>
        outbound.items == old(outbound.items) && closeCode == old(closeCode) && r.Failure?
      ensures frame.size <= maxFrame && !old(outbound.closed) ==>
        && outbound.items == PutItem(old(outbound.items), Item(frame.kind, frame.size, topic))
        && (r == Success(()) <==> Bytes(outbound.items) <= outbound.limit)
        && (r == Success(()) ==> closeCode == old(closeCode) && !outbound.closed)
        && (r.Failure? ==> outbound.closed && closeCode == if old(closeCode).Some? then old(closeCode) else Some(1013))
      ensures frame.size <= maxFrame && r.Failure? ==> r == Failure(SocketClosed)
    {
      if frame.size > maxFrame {
        return Failure(Oversized);
      }
      var refused := outbound.Put(frame.kind, frame.size, topic);
      match refused
      case None => r := Success(());
      case Some(Closed) => r := Failure(SocketClosed);
      case Some(Overflow) =>
        End(UNAVAILABLE);
        r := Failure(SocketClosed);
    }

    /** Whether a notice of this topic reaches the queue. */
    predicate Hears(topic: string, size: nat)
      reads this, outbound
    {
      topic in subscriptions && closeCode.None? && !outbound.closed && size <= maxFrame
    }

    method HearChanged(topic: string, revision: nat, size: nat)
      requires Valid()
      modifies this`closeCode, outbound
      ensures Valid()
      ensures outbound.items == Noticed(old(outbound.items), old(Hears(topic, size)), topic, revision, size)
      ensures topic in old(subscriptions) && old(closeCode).None? && !old(outbound.closed) && size <= maxFrame ==>
                outbound.items == PutItem(old(outbound.items), Item(Changed(topic, revision), size, Some(topic)))
      ensures topic !in old(subscriptions) || old(closeCode).Some? || old(outbound.closed) ==>
                outbound.items == old(outbound.items)
    {
      if topic in subscriptions && closeCode.None? {
        var _ := Send(Frame(Changed(topic, revision), size), Some(topic));
      }
    }

    /** Subscribes to more topics, answering the revision each subscription starts from, or refuses them all. */
    method Subscribe(wanted: set<string>, topics: Topics) returns (answer: Subscribed)
      requires Valid()
      modifies this`subscriptions
      ensures Valid()
      ensures answer.TooMany? <==> |old(subscriptions) + wanted| > 64
      ensures subscriptions == if answer.TooMany? then old(subscriptions) else old(subscriptions) + wanted
      ensures answer.Subscribed? ==>
        && answer.revisions.Keys == subscriptions
        && forall topic <- answer.revisions :: answer.revisions[topic] == topics.Revision(topic)
    {
      if |subscriptions + wanted| > MAX_SUBSCRIPTIONS {
        return TooMany;
      }
      subscriptions := subscriptions + wanted;
      answer := Subscribed(map topic | topic in subscriptions :: topics.Revision(topic));
    }
  }

  /** No two listeners share a socket or a queue. */
  ghost predicate NoneShared(listeners: map<nat, Socket>) {
    forall i, j | i in listeners && j in listeners && i != j ::
      listeners[i] != listeners[j] && listeners[i].outbound != listeners[j].outbound
  }

  ghost function Queues(listeners: map<nat, Socket>): set<object> {
    set id | id in listeners :: listeners[id].outbound
  }

  /** What each queue holds once its listener, if it still waits, heard the change. */
  ghost predicate Telling(listeners: map<nat, Socket>, waiting: set<nat>, told: map<nat, seq<Item<Kind>>>,
                          topic: string, revision: nat, size: nat)
    requires listeners.Keys <= told.Keys
    reads listeners.Values, Queues(listeners)
  {
    forall id <- listeners ::
      && listeners[id].Valid()
      && told[id] == Noticed(listeners[id].outbound.items, id in waiting && listeners[id].Hears(topic, size),
                             topic, revision, size)
  }

  /** One listener hears a change; no other listener, nor its queue, is touched. */
  method TellOne(listeners: map<nat, Socket>, id: nat, topic: string, revision: nat, size: nat,
                 ghost waiting: set<nat>, ghost told: map<nat, seq<Item<Kind>>>)
    requires NoneShared(listeners) && id in listeners && id in waiting && listeners.Keys <= told.Keys
    requires Telling(listeners, waiting, told, topic, revision, size)
    modifies listeners[id], listeners[id].outbound
    ensures Telling(listeners, waiting - {id}, told, topic, revision, size)
  {
    listeners[id].HearChanged(topic, revision, size);
    forall other <- listeners.Keys - {id}
      ensures listeners[other].Valid() && unchanged(listeners[other]) && unchanged(listeners[other].outbound)
    {
    }
  }

  /** Every listener hears one change, in no particular order; each queue gains its own notice and nothing else. */
  method Tell(listeners: map<nat, Socket>, topic: string, revision: nat, size: nat)
    requires NoneShared(listeners) && forall id <- listeners :: listeners[id].Valid()
    modifies listeners.Values, Queues(listeners)
    ensures forall id <- listeners ::
      && listeners[id].Valid()
      && listeners[id].outbound.items ==
         Noticed(old(listeners[id].outbound.items), old(listeners[id].Hears(topic, size)), topic, revision, size)
  {
    var waiting := listeners.Keys;
    ghost var told := map id | id in listeners ::
      Noticed(listeners[id].outbound.items, listeners[id].Hears(topic, size), topic, revision, size);
    while waiting != {}
      invariant waiting <= listeners.Keys && Telling(listeners, waiting, told, topic, revision, size)
      decreases waiting
    {
      var id :| id in waiting;
      TellOne(listeners, id, topic, revision, size, waiting, told);
      waiting := waiting - {id};
    }
  }

  class Topics {
    var revisions: map<string, nat>
    var listeners: map<nat, Socket>
    var next: nat

    ghost predicate Valid()
      reads this, listeners.Values, Queues(listeners)
    {
      && NoneShared(listeners)
      && forall id <- listeners :: id <= next && listeners[id].Valid()
    }

    constructor ()
      ensures Valid() && revisions == map[] && listeners == map[]
    {
      revisions, listeners, next := map[], map[], 0;
    }

    function Revision(topic: string): nat
      reads this
    {
      if topic in revisions then revisions[topic] else 0
    }

    method Listen(socket: Socket) returns (id: nat)
      requires Valid() && socket.Valid()
      requires forall i <- listeners :: listeners[i] != socket && listeners[i].outbound != socket.outbound
      modifies this`listeners, this`next
      ensures Valid() && id !in old(listeners) && listeners == old(listeners)[id := socket]
    {
      next := next + 1;
      id := next;
      listeners := listeners[id := socket];
    }

    method Forget(id: nat)
      requires Valid()
      modifies this`listeners
      ensures Valid() && listeners == old(listeners) - {id}
    {
      listeners := listeners - {id};
    }

    /**
    A change of one topic: its revision advances by one and no other's does, and exactly the sockets that hear it gain a
    notice. What is no topic's name changes neither.
    */
    method Raise(topic: string, isTopic: bool, size: nat) returns (current: nat)
      requires Valid()
      modifies this`revisions, listeners.Values, Queues(listeners)
      ensures Valid() && listeners == old(listeners)
      ensures !isTopic ==> current == 0 && revisions == old(revisions)
      ensures isTopic ==> current == old(Revision(topic)) + 1 && revisions == old(revisions)[topic := current]
      ensures isTopic ==> Revision(topic) == current
      ensures forall id <- listeners ::
        var socket, before := listeners[id], old(listeners[id].outbound.items);
        if && isTopic && topic in old(socket.subscriptions) && old(socket.closeCode).None?
           && !old(socket.outbound.closed) && size <= socket.maxFrame
        then socket.outbound.items == PutItem(before, Item(Changed(topic, current), size, Some(topic)))
        else socket.outbound.items == before
    {
      if !isTopic {
        return 0;
      }
      current := Revision(topic) + 1;
      revisions := revisions[topic := current];
      Tell(listeners, topic, current, size);
    }
  }
}
