/**
Which sessions Admin tracks: what keeps one tracked, what idles out or is evicted, and what listeners hear of it.
Each critical section is one step that reads the clock once.
*/
module Sessions {
  import opened Lists
  import opened Wrappers

  const IDLE_MS: int := 3_600_000
  const MAX_TRACKED: nat := 64

  type Key = string

  /** When a session was last active, and its place among all registrations. */
  datatype Seen = Seen(at: int, order: nat)

  // ---- The whole history ----

  /** What happened: a session was registered, its Supervisor was active, or listeners heard that sessions ended. */
  datatype Event = Registered(key: Key, at: int) | Active(key: Key, at: int) | Ended(keys: set<Key>)

  function Tracked(log: seq<Event>): set<Key> {
    if log == [] then {}
    else
      match Last(log)
      case Registered(key, _) => Tracked(Before(log)) + {key}
      case Active(_, _) => Tracked(Before(log))
      case Ended(keys) => Tracked(Before(log)) - keys
  }

  function Registrations(log: seq<Event>): nat {
    if log == [] then 0 else Registrations(Before(log)) + (if Last(log).Registered? then 1 else 0)
  }

  /** When the session was last registered or active, and the number of its last registration. */
  function LastSeen(log: seq<Event>, key: Key): Option<Seen> {
    if log == [] then None
    else
      var before := LastSeen(Before(log), key);
      match Last(log)
      case Registered(other, at) => if other == key then Some(Seen(at, Registrations(log))) else before
      case Active(other, at) => if other == key && before.Some? then Some(before.value.(at := at)) else before
      case Ended(_) => before
  }

  /** Listeners hear only of tracked sessions, and only a tracked session that is not idle is active. */
  ghost predicate Lawful(log: seq<Event>) {
    log == []
    || (Lawful(Before(log))
        && match Last(log)
           case Registered(_, _) => true
           case Active(key, at) => key in Tracked(Before(log)) && !IsIdle(Before(log), key, at)
           case Ended(keys) => keys <= Tracked(Before(log)))
  }

  predicate IsIdle(log: seq<Event>, key: Key, now: int) {
    LastSeen(log, key).Some? && now - LastSeen(log, key).value.at >= IDLE_MS
  }

  /** Registered there, and in no report of ended sessions since. */
  predicate TrackedSince(log: seq<Event>, key: Key, i: int) {
    && 0 <= i < |log| && log[i].Registered? && log[i].key == key
    && forall j | i < j < |log| && log[j].Ended? :: key !in log[j].keys
  }

  /** A session is tracked exactly from a registration on until it is reported ended. */
  lemma {:induction false} TrackedUntilEnded(log: seq<Event>, key: Key)
    ensures key in Tracked(log) <==> exists i :: TrackedSince(log, key, i)
  {
    if log != [] {
      var rest := Before(log);
      TrackedUntilEnded(rest, key);
      if exists i :: TrackedSince(rest, key, i) {
        var i :| TrackedSince(rest, key, i);
        assert !(Last(log).Ended? && key in Last(log).keys) ==> TrackedSince(log, key, i);
      }
      if exists i :: TrackedSince(log, key, i) {
        var i :| TrackedSince(log, key, i);
        if i < |rest| {
          assert TrackedSince(rest, key, i);
        }
      }
      if Last(log).Registered? && Last(log).key == key {
        assert TrackedSince(log, key, |rest|);
      }
    }
  }

  /** The session's latest registration or activity. */
  predicate SeenLastAt(log: seq<Event>, key: Key, i: int) {
    && 0 <= i < |log| && !log[i].Ended? && log[i].key == key
    && forall j | i < j < |log| && !log[j].Ended? :: log[j].key != key
  }

  /** A tracked session was seen last at its latest registration or activity. */
  lemma {:induction false} LastSeenIsLatest(log: seq<Event>, key: Key, i: int)
    requires Lawful(log) && SeenLastAt(log, key, i)
    ensures LastSeen(log, key).Some? && LastSeen(log, key).value.at == log[i].at
  {
    var rest := Before(log);
    if i < |rest| {
      assert SeenLastAt(rest, key, i);
      LastSeenIsLatest(rest, key, i);
    } else if log[i].Active? {
      SeenWhileTracked(rest, key);
    }
  }

  lemma {:induction false} SeenWhileTracked(log: seq<Event>, key: Key)
    requires key in Tracked(log)
    ensures LastSeen(log, key).Some? && exists i :: SeenLastAt(log, key, i)
  {
    var rest := Before(log);
    if !Last(log).Ended? && Last(log).key == key {
      assert SeenLastAt(log, key, |rest|);
      if Last(log).Active? {
        SeenWhileTracked(rest, key);
      }
    } else {
      SeenWhileTracked(rest, key);
      var i :| SeenLastAt(rest, key, i);
      assert SeenLastAt(log, key, i);
    }
  }

  /** A tracked session idles once an hour passed since its latest registration or activity. */
  lemma IdleAfterAnHour(log: seq<Event>, key: Key, now: int)
    requires Lawful(log) && key in Tracked(log)
    ensures exists i :: SeenLastAt(log, key, i)
    ensures forall i | SeenLastAt(log, key, i) :: IsIdle(log, key, now) <==> now >= log[i].at + 3_600_000
  {
    SeenWhileTracked(log, key);
    forall i | SeenLastAt(log, key, i) ensures IsIdle(log, key, now) <==> now >= log[i].at + 3_600_000 {
      LastSeenIsLatest(log, key, i);
    }
  }

  /** How often a session began to be tracked, and how often listeners heard it end. */
  function Begun(log: seq<Event>, key: Key): nat {
    if log == [] then 0
    else
      var begins := Last(log).Registered? && Last(log).key == key && key !in Tracked(Before(log));
      Begun(Before(log), key) + (if begins then 1 else 0)
  }

  function Heard(log: seq<Event>, key: Key): nat {
    if log == [] then 0
    else Heard(Before(log), key) + (if Last(log).Ended? && key in Last(log).keys then 1 else 0)
  }

  /** Each session that began to be tracked is tracked still or was reported ended, and exactly once. */
  lemma {:induction false} EndedExactlyOnce(log: seq<Event>, key: Key)
    requires Lawful(log)
    ensures Begun(log, key) == Heard(log, key) + (if key in Tracked(log) then 1 else 0)
  {
    if log != [] {
      EndedExactlyOnce(Before(log), key);
    }
  }

  lemma {:induction false} OrdersGrow(log: seq<Event>, key: Key)
    ensures LastSeen(log, key).Some? ==> 0 < LastSeen(log, key).value.order <= Registrations(log)
  {
    if log != [] {
      OrdersGrow(Before(log), key);
    }
  }

  /** No two sessions share a registration. */
  lemma {:induction false} OrdersDiffer(log: seq<Event>, key: Key, other: Key)
    requires key != other && LastSeen(log, key).Some? && LastSeen(log, other).Some?
    ensures LastSeen(log, key).value.order != LastSeen(log, other).value.order
  {
    OrdersGrow(Before(log), key);
    OrdersGrow(Before(log), other);
    if LastSeen(Before(log), key).Some? && LastSeen(Before(log), other).Some? {
      OrdersDiffer(Before(log), key, other);
    }
  }

  // ---- What is kept of it ----

  predicate Precedes(one: Seen, other: Seen) {
    one.at < other.at || (one.at == other.at && one.order <= other.order)
  }

  predicate IsLeast(lastSeen: map<Key, Seen>, key: Key) {
    key in lastSeen && forall other <- lastSeen :: Precedes(lastSeen[key], lastSeen[other])
  }

  lemma {:induction false} LeastExists(lastSeen: map<Key, Seen>)
    requires |lastSeen| > 0
    ensures exists key :: IsLeast(lastSeen, key)
    decreases |lastSeen|
  {
    var key :| key in lastSeen;
    var rest := lastSeen - {key};
    assert lastSeen.Keys == rest.Keys + {key};
    if |rest| == 0 {
      assert rest.Keys == {};
      assert IsLeast(lastSeen, key);
    } else {
      LeastExists(rest);
      var least :| IsLeast(rest, least);
      var first := if Precedes(lastSeen[key], lastSeen[least]) then key else least;
      assert IsLeast(lastSeen, first);
    }
  }

  /** The map and the counter hold what the whole history says of the tracked sessions. */
  ghost predicate Represents(lastSeen: map<Key, Seen>, order: nat, log: seq<Event>) {
    && lastSeen.Keys == Tracked(log) && order == Registrations(log)
    && forall key <- lastSeen :: LastSeen(log, key) == Some(lastSeen[key])
  }

  /** Which session an eviction takes does not depend on the map's order. */
  lemma LeastIsUnique(lastSeen: map<Key, Seen>, order: nat, log: seq<Event>, out: set<Key>, one: Key, other: Key)
    requires Represents(lastSeen, order, log) && IsLeast(lastSeen - out, one) && IsLeast(lastSeen - out, other)
    ensures one == other
  {
    if one != other {
      assert one in lastSeen && other in lastSeen;
      OrdersDiffer(log, one, other);
    }
  }

  /** Who ends for a new session: every idle one, and at capacity exactly one more, the least recently active. */
  ghost predicate EndFor(lastSeen: map<Key, Seen>, now: int, ended: set<Key>) {
    var idle := Idle(lastSeen, now);
    if |lastSeen - idle| < MAX_TRACKED then ended == idle
    else exists least :: IsLeast(lastSeen - idle, least) && ended == idle + {least}
  }

  function Idle(lastSeen: map<Key, Seen>, now: int): set<Key> {
    set key | key in lastSeen && now - lastSeen[key].at >= IDLE_MS
  }

  function WithEnded(log: seq<Event>, ended: set<Key>): seq<Event> {
    if ended == {} then log else log + [Ended(ended)]
  }

  /** The session was seen no later than the other; of two seen at once, it registered first. */
  predicate SeenEarlier(one: Seen, other: Seen) {
    one.at < other.at || (one.at == other.at && one.order <= other.order)
  }

  /**
  Everyone idle for an hour ends. One more ends exactly when 64 others would be left, and it is the one seen least
  recently of them.
  */
  lemma EndForMeans(lastSeen: map<Key, Seen>, now: int, ended: set<Key>)
    requires EndFor(lastSeen, now, ended)
    ensures var idle := set key | key in lastSeen && now >= lastSeen[key].at + 3_600_000;
      && idle <= ended <= lastSeen.Keys
      && (|lastSeen.Keys - idle| < 64 ==> ended == idle)
      && (|lastSeen.Keys - idle| >= 64 ==>
            exists least <- lastSeen.Keys - idle :: ended == idle + {least} &&
              forall other <- lastSeen.Keys - idle :: SeenEarlier(lastSeen[least], lastSeen[other]))
  {
    var idle := set key | key in lastSeen && now >= lastSeen[key].at + 3_600_000;
    assert idle == Idle(lastSeen, now);
    assert (lastSeen - idle).Keys == lastSeen.Keys - idle;
  }

  lemma EndedIsRepresented(lastSeen: map<Key, Seen>, order: nat, log: seq<Event>, ended: set<Key>)
    requires Represents(lastSeen, order, log) && Lawful(log) && ended <= lastSeen.Keys
    ensures Represents(lastSeen - ended, order, log + [Ended(ended)]) && Lawful(log + [Ended(ended)])
  {
    assert Before(log + [Ended(ended)]) == log;
  }

  lemma EndingIsRepresented(lastSeen: map<Key, Seen>, order: nat, log: seq<Event>, ended: set<Key>)
    requires Represents(lastSeen, order, log) && Lawful(log) && ended <= lastSeen.Keys
    ensures Represents(lastSeen - ended, order, WithEnded(log, ended)) && Lawful(WithEnded(log, ended))
  {
    if ended == {} {
      assert lastSeen - ended == lastSeen;
    } else {
      EndedIsRepresented(lastSeen, order, log, ended);
    }
  }

  lemma RegisteredIsRepresented(lastSeen: map<Key, Seen>, order: nat, log: seq<Event>, key: Key, now: int)
    requires Represents(lastSeen, order, log) && Lawful(log)
    ensures var longer := log + [Registered(key, now)];
      Represents(lastSeen[key := Seen(now, order + 1)], order + 1, longer) && Lawful(longer)
  {
    assert Before(log + [Registered(key, now)]) == log;
  }

  lemma ActiveIsRepresented(lastSeen: map<Key, Seen>, order: nat, log: seq<Event>, key: Key, now: int)
    requires Represents(lastSeen, order, log) && Lawful(log)
    requires key in lastSeen && now - lastSeen[key].at < IDLE_MS
    ensures var longer := log + [Active(key, now)];
      Represents(lastSeen[key := lastSeen[key].(at := now)], order, longer) && Lawful(longer)
  {
    assert Before(log + [Active(key, now)]) == log;
  }

  lemma WithoutOne(kept: map<Key, Seen>, key: Key)
    requires key in kept
    ensures |kept - {key}| == |kept| - 1
  {
    assert (kept - {key}).Keys == kept.Keys - {key};
  }

  lemma FewerKept(lastSeen: map<Key, Seen>, ended: set<Key>)
    ensures |lastSeen - ended| <= |lastSeen|
  {
    var all, kept := lastSeen.Keys, (lastSeen - ended).Keys;
    assert kept == all - ended;
    assert all == kept + (all - kept);
  }

  lemma RegisterIsRepresented(
      lastSeen: map<Key, Seen>, order: nat, log: seq<Event>, ended: set<Key>, key: Key, now: int)
    requires Represents(lastSeen, order, log) && Lawful(log)
    requires ended <= lastSeen.Keys && |lastSeen - ended| < MAX_TRACKED
    ensures var longer := WithEnded(log, ended) + [Registered(key, now)];
      var next := (lastSeen - ended)[key := Seen(now, order + 1)];
      Represents(next, order + 1, longer) && Lawful(longer) && |next| <= MAX_TRACKED
  {
    EndingIsRepresented(lastSeen, order, log, ended);
    RegisteredIsRepresented(lastSeen - ended, order, WithEnded(log, ended), key, now);
    OneMore(lastSeen - ended, key, Seen(now, order + 1));
  }

  lemma OneMore(kept: map<Key, Seen>, key: Key, seen: Seen)
    ensures |kept[key := seen]| <= |kept| + 1
  {
    assert kept[key := seen].Keys == kept.Keys + {key};
  }

  /** Makes room for one session. */
  method Making(lastSeen: map<Key, Seen>, now: int) returns (ended: set<Key>)
    requires |lastSeen| <= MAX_TRACKED
    ensures EndFor(lastSeen, now, ended) && ended <= lastSeen.Keys && |lastSeen - ended| < MAX_TRACKED
  {
    var idle := Idle(lastSeen, now);
    ended := idle;
    FewerKept(lastSeen, idle);
    while |lastSeen - ended| >= MAX_TRACKED
      invariant ended <= lastSeen.Keys
      invariant ended == idle || (|lastSeen - ended| < MAX_TRACKED && EndFor(lastSeen, now, ended))
      decreases |lastSeen - ended|
    {
      var kept := lastSeen - ended;
      LeastExists(kept);
      var evicted :| IsLeast(kept, evicted);
      WithoutOne(kept, evicted);
      assert lastSeen - (ended + {evicted}) == kept - {evicted};
      ended := ended + {evicted};
    }
  }

  class Sessions {
    var lastSeen: map<Key, Seen>
    var order: nat
    // Everything that happened, and the latest clock reading.
    ghost var log: seq<Event>

    ghost predicate Valid()
      reads this
    {
      Represents(lastSeen, order, log) && Lawful(log) && |lastSeen| <= MAX_TRACKED
    }

    constructor ()
      ensures Valid() && log == []
    {
      lastSeen, order, log := map[], 0, [];
    }

    /** A new session is seen now; the answer says which others ended for it. */
    method Register(key: Key, now: int) returns (ended: set<Key>)
      requires Valid()
      modifies this
      ensures Valid() && log == WithEnded(old(log), ended) + [Registered(key, now)]
      ensures EndFor(old(lastSeen), now, ended)
    {
      ended := Making(lastSeen, now);
      RegisterIsRepresented(lastSeen, order, log, ended, key, now);
      lastSeen, order, log :=
        (lastSeen - ended)[key := Seen(now, order + 1)], order + 1, WithEnded(log, ended) + [Registered(key, now)];
    }

    /**
    A session is current while it was seen within the idle time; one that was not ends and is reported, and only
    Supervisor activity moves when it was seen.
    */
    method Current(key: Key, activity: bool, now: int) returns (current: bool, ended: set<Key>)
      requires Valid()
      modifies this
      ensures Valid()
      ensures current <==> key in Tracked(old(log)) && !IsIdle(old(log), key, now)
      ensures current <==> key in Tracked(old(log)) &&
                           exists i :: SeenLastAt(old(log), key, i) && now < old(log)[i].at + 3_600_000
      ensures ended == if key in Tracked(old(log)) && !current then {key} else {}
      ensures log == if ended != {} then old(log) + [Ended(ended)]
                     else if current && activity then old(log) + [Active(key, now)] else old(log)
    {
      if key !in lastSeen {
        return false, {};
      }
      IdleAfterAnHour(log, key, now);
      var seen := lastSeen[key];
      if now - seen.at >= IDLE_MS {
        EndedIsRepresented(lastSeen, order, log, {key});
        lastSeen, log := lastSeen - {key}, log + [Ended({key})];
        return false, {key};
      }
      if activity {
        ActiveIsRepresented(lastSeen, order, log, key, now);
        lastSeen, log := lastSeen[key := seen.(at := now)], log + [Active(key, now)];
      }
      return true, {};
    }

    /** Every tracked session ends and is reported at once. */
    method EndAll()
      requires Valid()
      modifies this
      ensures Valid() && log == old(log) + [Ended(Tracked(old(log)))] && lastSeen == map[]
    {
      EndedIsRepresented(lastSeen, order, log, lastSeen.Keys);
      assert lastSeen - lastSeen.Keys == map[];
      log, lastSeen := log + [Ended(lastSeen.Keys)], map[];
    }
  }
}
