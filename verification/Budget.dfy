/**
Session-scoped admission budgets over a sliding minute, and the interval between two renewals. Both keep only what still
counts; both answer as the whole log of what they ever admitted would. Each critical section reads the clock once, and
the clock never goes back from one section to the next.
*/
module Budget {

  const WINDOW_MS: int := 60_000
  const RENEWAL_MS: int := 30_000

  /** One admitted event: its session and when it was admitted. */
  datatype Event = Event(session: string, at: int)

  // ---- The whole log ----

  /** How many admitted events of the session fall within [from, until). */
  function Admitted(log: seq<Event>, session: string, from: int, until: int): (n: nat)
    ensures n <= |log|
  {
    if log == [] then 0
    else
      var last := log[|log| - 1];
      Admitted(log[..|log| - 1], session, from, until)
      + (if last.session == session && from <= last.at < until then 1 else 0)
  }

  /** What a session spent of its minute at `now`. */
  function Spent(log: seq<Event>, session: string, now: int): nat {
    Admitted(log, session, now - WINDOW_MS + 1, now + 1)
  }

  /** Which admitted events of the session fall within its minute: later than 60,000 ms ago, and not after now. */
  function OfTheMinute(log: seq<Event>, session: string, now: int): set<nat> {
    set i: nat | i < |log| && log[i].session == session && now - 60_000 < log[i].at <= now
  }

  /** What is spent is the number of those events. */
  lemma {:induction false} SpentCounts(log: seq<Event>, session: string, now: int)
    ensures Spent(log, session, now) == |OfTheMinute(log, session, now)|
  {
    if log != [] {
      var rest, n := log[..|log| - 1], |log| - 1;
      SpentCounts(rest, session, now);
      var counts := log[n].session == session && now - 60_000 < log[n].at <= now;
      assert OfTheMinute(log, session, now) == OfTheMinute(rest, session, now) + if counts then {n} else {};
    }
  }

  /** A log every event of which was admitted under its limit, on a clock that never goes back. */
  ghost predicate Lawful(log: seq<Event>, limit: nat) {
    forall i | 0 <= i < |log| ::
      && Spent(log[..i], log[i].session, log[i].at) < limit
      && forall j | 0 <= j < i :: log[j].at <= log[i].at
  }

  /** A larger window holds no fewer events. */
  lemma {:induction false} AdmittedMonotone(
      log: seq<Event>, session: string, from: int, until: int, from': int, until': int)
    requires from' <= from && until <= until'
    ensures Admitted(log, session, from, until) <= Admitted(log, session, from', until')
  {
    if log != [] {
      AdmittedMonotone(log[..|log| - 1], session, from, until, from', until');
    }
  }

  /** Past the clock the window may end anywhere. */
  lemma {:induction false} AdmittedUntil(log: seq<Event>, session: string, from: int, until: int, until': int)
    requires until <= until' && forall i | 0 <= i < |log| :: log[i].at < until
    ensures Admitted(log, session, from, until) == Admitted(log, session, from, until')
  {
    if log != [] {
      AdmittedUntil(log[..|log| - 1], session, from, until, until');
    }
  }

  lemma ShorterIsLawful(log: seq<Event>, limit: nat)
    requires Lawful(log, limit) && log != []
    ensures Lawful(log[..|log| - 1], limit)
  {
    forall i | 0 <= i < |log| - 1 ensures log[..|log| - 1][..i] == log[..i] {}
  }

  /** No half-open window of one minute ever holds more admissions of one session than the limit. */
  lemma {:induction false} NoMinuteExceedsTheLimit(log: seq<Event>, limit: nat, session: string, from: int)
    requires Lawful(log, limit)
    ensures Admitted(log, session, from, from + WINDOW_MS) <= limit
  {
    if log != [] {
      var n := |log| - 1;
      var last := log[n];
      ShorterIsLawful(log, limit);
      NoMinuteExceedsTheLimit(log[..n], limit, session, from);
      if last.session == session && from <= last.at < from + WINDOW_MS {
        AdmittedUntil(log[..n], session, from, last.at + 1, from + WINDOW_MS);
        AdmittedMonotone(log[..n], session, from, last.at + 1, last.at - WINDOW_MS + 1, last.at + 1);
      }
    }
  }

  // ---- What is kept of it ----

  /** When the session's events were admitted, in order. */
  function Times(log: seq<Event>, session: string): seq<int> {
    if log == [] then []
    else
      var last := log[|log| - 1];
      Times(log[..|log| - 1], session) + (if last.session == session then [last.at] else [])
  }

  /** `kept` is what remains of the session's times once some no later than `before` were dropped from the front. */
  ghost predicate KeptOf(kept: seq<int>, times: seq<int>, before: int) {
    && |kept| <= |times|
    && kept == times[|times| - |kept|..]
    && forall k | 0 <= k < |times| - |kept| :: times[k] <= before
  }

  function CountAfter(times: seq<int>, before: int): nat {
    if times == [] then 0
    else CountAfter(times[..|times| - 1], before) + (if times[|times| - 1] > before then 1 else 0)
  }

  lemma {:induction false} SpentIsCount(log: seq<Event>, session: string, now: int)
    requires forall i | 0 <= i < |log| :: log[i].at <= now
    ensures Spent(log, session, now) == CountAfter(Times(log, session), now - WINDOW_MS)
  {
    if log != [] {
      SpentIsCount(log[..|log| - 1], session, now);
      var times := Times(log, session);
      if log[|log| - 1].session == session {
        assert times[..|times| - 1] == Times(log[..|log| - 1], session);
      } else {
        assert times == Times(log[..|log| - 1], session);
      }
    }
  }

  /** Once nothing kept is older than the window, what is kept is exactly what still counts. */
  lemma {:induction false} KeptCounts(kept: seq<int>, times: seq<int>, before: int)
    requires KeptOf(kept, times, before) && forall k | 0 <= k < |kept| :: kept[k] > before
    ensures CountAfter(times, before) == |kept|
  {
    if times != [] {
      var rest := times[..|times| - 1];
      if kept == [] {
        assert KeptOf([], rest, before);
        KeptCounts([], rest, before);
      } else {
        assert kept[|kept| - 1] == times[|times| - 1];
        assert KeptOf(kept[..|kept| - 1], rest, before);
        KeptCounts(kept[..|kept| - 1], rest, before);
      }
    }
  }

  ghost predicate Sorted(times: seq<int>) {
    forall i, j | 0 <= i < j < |times| :: times[i] <= times[j]
  }

  lemma {:induction false} TimesSorted(log: seq<Event>, session: string)
    requires forall i, j | 0 <= i < j < |log| :: log[i].at <= log[j].at
    ensures Sorted(Times(log, session))
    ensures log != [] ==> forall k | 0 <= k < |Times(log, session)| :: Times(log, session)[k] <= log[|log| - 1].at
  {
    if log != [] {
      TimesSorted(log[..|log| - 1], session);
    }
  }

  /** A session stays while its newest time is within the window. */
  function Retained(seen: seq<int>, now: int): seq<int> {
    if seen != [] && now - seen[|seen| - 1] < WINDOW_MS then seen else []
  }

  /** Dropping a session whose newest time left the window drops nothing that still counts. */
  lemma RetainedIsKept(log: seq<Event>, session: string, kept: seq<int>, clock: int, now: int)
    requires KeptOf(kept, Times(log, session), clock - WINDOW_MS) && clock <= now
    requires forall i, j | 0 <= i < j < |log| :: log[i].at <= log[j].at
    ensures KeptOf(Retained(kept, now), Times(log, session), now - WINDOW_MS)
  {
    var times := Times(log, session);
    TimesSorted(log, session);
    if kept != [] && Retained(kept, now) == [] {
      assert kept[|kept| - 1] == times[|times| - 1];
      assert forall k | 0 <= k < |times| :: times[k] <= times[|times| - 1];
    }
  }

  lemma Appended(log: seq<Event>, event: Event, session: string)
    ensures Times(log + [event], session) ==
            Times(log, session) + (if event.session == session then [event.at] else [])
  {
    assert (log + [event])[..|log|] == log;
  }

  lemma StaysLawful(log: seq<Event>, event: Event, limit: nat)
    requires Lawful(log, limit) && Spent(log, event.session, event.at) < limit
    requires forall i | 0 <= i < |log| :: log[i].at <= event.at
    ensures Lawful(log + [event], limit)
  {
    var longer := log + [event];
    forall i | 0 <= i < |longer| ensures longer[..i] == if i < |log| then log[..i] else log {}
  }

  /** What a session's deque holds; a session that was dropped holds nothing. */
  function Seen(events: map<string, seq<int>>, session: string): seq<int> {
    if session in events then events[session] else []
  }

  /** Every session's deque is what remains of its times. */
  ghost predicate AllKept(events: map<string, seq<int>>, log: seq<Event>, clock: int) {
    && (forall i, j | 0 <= i < j < |log| :: log[i].at <= log[j].at)
    && (forall i | 0 <= i < |log| :: log[i].at <= clock)
    && forall session :: KeptOf(Seen(events, session), Times(log, session), clock - WINDOW_MS)
  }

  function RetainedSessions(events: map<string, seq<int>>, now: int): map<string, seq<int>> {
    map session | session in events && Retained(events[session], now) != [] :: events[session]
  }

  lemma DroppedKept(events: map<string, seq<int>>, log: seq<Event>, clock: int, now: int)
    requires AllKept(events, log, clock) && clock <= now
    ensures AllKept(RetainedSessions(events, now), log, now)
  {
    var kept := RetainedSessions(events, now);
    forall session ensures KeptOf(Seen(kept, session), Times(log, session), now - WINDOW_MS) {
      RetainedIsKept(log, session, Seen(events, session), clock, now);
      assert Seen(kept, session) == Retained(Seen(events, session), now);
    }
  }

  /** Replacing one session's deque by what still counts of it keeps them all. */
  lemma RefusedKept(events: map<string, seq<int>>, log: seq<Event>, now: int, session: string, seen: seq<int>)
    requires AllKept(events, log, now) && KeptOf(seen, Times(log, session), now - WINDOW_MS)
    ensures AllKept(events[session := seen], log, now)
  {
    forall other
      ensures KeptOf(Seen(events[session := seen], other), Times(log, other), now - WINDOW_MS)
    {
      assert KeptOf(Seen(events, other), Times(log, other), now - WINDOW_MS);
    }
  }

  lemma AdmittedKept(events: map<string, seq<int>>, log: seq<Event>, now: int, session: string, seen: seq<int>)
    requires AllKept(events, log, now) && KeptOf(seen, Times(log, session), now - WINDOW_MS)
    ensures AllKept(events[session := seen + [now]], log + [Event(session, now)], now)
  {
    forall other
      ensures KeptOf(Seen(events[session := seen + [now]], other), Times(log + [Event(session, now)], other),
                     now - WINDOW_MS)
    {
      OtherKept(log, now, session, other, if other == session then seen else Seen(events, other));
    }
    StaysSorted(log, Event(session, now));
  }

  lemma StaysSorted(log: seq<Event>, event: Event)
    requires forall i, j | 0 <= i < j < |log| :: log[i].at <= log[j].at
    requires forall i | 0 <= i < |log| :: log[i].at <= event.at
    ensures forall i, j | 0 <= i < j < |log + [event]| :: (log + [event])[i].at <= (log + [event])[j].at
    ensures forall i | 0 <= i < |log + [event]| :: (log + [event])[i].at <= event.at
  {
  }

  lemma OtherKept(log: seq<Event>, now: int, session: string, other: string, kept: seq<int>)
    requires KeptOf(kept, Times(log, other), now - WINDOW_MS)
    ensures KeptOf(if other == session then kept + [now] else kept, Times(log + [Event(session, now)], other),
                   now - WINDOW_MS)
  {
    Appended(log, Event(session, now), other);
  }

  lemma KeptIsSpent(seen: seq<int>, now: int, log: seq<Event>, session: string)
    requires KeptOf(seen, Times(log, session), now - WINDOW_MS) && (seen != [] ==> now - seen[0] < WINDOW_MS)
    requires forall i, j | 0 <= i < j < |log| :: log[i].at <= log[j].at
    requires forall i | 0 <= i < |log| :: log[i].at <= now
    ensures |seen| == Spent(log, session, now)
  {
    TimesSorted(log, session);
    KeptCounts(seen, Times(log, session), now - WINDOW_MS);
    SpentIsCount(log, session, now);
  }

  /** Pops what left the window; what remains is as much as the session spent of its minute. */
  method Within(deque: seq<int>, now: int, ghost log: seq<Event>, ghost session: string) returns (seen: seq<int>)
    requires KeptOf(deque, Times(log, session), now - WINDOW_MS)
    requires forall i, j | 0 <= i < j < |log| :: log[i].at <= log[j].at
    requires forall i | 0 <= i < |log| :: log[i].at <= now
    ensures KeptOf(seen, Times(log, session), now - WINDOW_MS)
    ensures |seen| == Spent(log, session, now)
  {
    ghost var times := Times(log, session);
    seen := deque;
    while seen != [] && now - seen[0] >= WINDOW_MS
      invariant KeptOf(seen, times, now - WINDOW_MS)
    {
      seen := seen[1..];
    }
    KeptIsSpent(seen, now, log, session);
  }

  /** How often each session may act within any minute: what was admitted, as far as it still counts. */
  class Budget {
    const limit: nat
    var events: map<string, seq<int>>
    // Every admission ever, and the latest clock reading.
    ghost var log: seq<Event>
    ghost var clock: int

    ghost predicate Valid()
      reads this
    {
      Lawful(log, limit) && AllKept(events, log, clock)
    }

    constructor (limit: nat, now: int)
      ensures Valid() && log == [] && clock == now && this.limit == limit
    {
      this.limit := limit;
      events, log, clock := map[], [], now;
    }

    /** Counts one event of the session exactly when the whole log says its minute is not spent. */
    method Admit(session: string, now: int) returns (admitted: bool)
      requires Valid() && clock <= now
      modifies this
      ensures Valid() && clock == now
      ensures admitted <==> Spent(old(log), session, now) < limit
      ensures admitted <==> |OfTheMinute(old(log), session, now)| < limit
      ensures log == if admitted then old(log) + [Event(session, now)] else old(log)
    {
      DroppedKept(events, log, clock, now);
      SpentCounts(log, session, now);
      clock, events := now, RetainedSessions(events, now);
      var seen := Within(Seen(events, session), now, log, session);
      if |seen| >= limit {
        RefusedKept(events, log, now, session, seen);
        events := events[session := seen];
        return false;
      }
      AdmittedKept(events, log, now, session, seen);
      StaysLawful(log, Event(session, now), limit);
      events := events[session := seen + [now]];
      log := log + [Event(session, now)];
      admitted := true;
    }
  }

  // ---- Renewals ----

  /** Any two renewals of one session are at least the interval apart. */
  ghost predicate Apart(log: seq<Event>) {
    forall i, j | 0 <= i < j < |log| && log[i].session == log[j].session :: log[j].at - log[i].at >= RENEWAL_MS
  }

  /** The map holds exactly the renewals still within the interval at the latest reading. */
  ghost predicate Remembers(renewed: map<string, int>, log: seq<Event>, clock: int) {
    && Apart(log)
    && (forall i | 0 <= i < |log| ::
          && log[i].at <= clock
          && (clock - log[i].at < RENEWAL_MS ==> log[i].session in renewed && renewed[log[i].session] == log[i].at))
    && (forall session <- renewed :: Event(session, renewed[session]) in log)
  }

  function Recent(renewed: map<string, int>, now: int): map<string, int> {
    map session | session in renewed && now - renewed[session] < RENEWAL_MS :: renewed[session]
  }

  lemma RecentIsRemembered(renewed: map<string, int>, log: seq<Event>, clock: int, now: int)
    requires Remembers(renewed, log, clock) && clock <= now
    ensures Remembers(Recent(renewed, now), log, now)
  {
    assert forall session <- Recent(renewed, now) :: session in renewed;
  }

  lemma RenewedIsRemembered(renewed: map<string, int>, log: seq<Event>, session: string, now: int)
    requires Remembers(renewed, log, now) && session !in renewed
    ensures Remembers(renewed[session := now], log + [Event(session, now)], now)
  {
    assert Event(session, now) in log + [Event(session, now)];
    assert forall event <- log :: event in log + [Event(session, now)];
  }

  /** The latest granted renewal of each session, for as long as it refuses another. */
  class Renewals {
    var renewed: map<string, int>
    ghost var log: seq<Event>
    ghost var clock: int

    ghost predicate Valid()
      reads this
    {
      Remembers(renewed, log, clock)
    }

    constructor (now: int)
      ensures Valid() && log == [] && clock == now
    {
      renewed, log, clock := map[], [], now;
    }

    /** Due exactly when the whole log holds no renewal of the session within the interval; a due one is counted. */
    method Due(session: string, now: int) returns (due: bool)
      requires Valid() && clock <= now
      modifies this
      ensures Valid() && clock == now
      ensures due <==> forall event <- old(log) :: event.session == session ==> now - event.at >= 30_000
      ensures log == if due then old(log) + [Event(session, now)] else old(log)
    {
      RecentIsRemembered(renewed, log, clock, now);
      renewed, clock := Recent(renewed, now), now;
      if session in renewed {
        assert Event(session, renewed[session]) in log;
        return false;
      }
      RenewedIsRemembered(renewed, log, session, now);
      renewed, log := renewed[session := now], log + [Event(session, now)];
      due := true;
    }
  }
}
