/**
Sign-in sessions and the authority each belongs to: every start is tracked before Team is asked, and a revocation
cancels what is running and marks what is still starting. A tracked start is named by its number.
*/
module SignIns {
  import opened Lists
  import opened Wrappers

  type TeamId = string
  type Start = nat

  // ---- The tracker's lock-protected sections ----

  /** The sessions the tracker holds, and the starts marked revoked while Team was still asked. */
  datatype Sessions = Sessions(running: map<TeamId, Start>, starting: seq<Start>, revoked: set<Start>)

  function Itself(start: Start): Start {
    start
  }

  /** The starts still awaited once one is answered. */
  function Awaited(starting: seq<Start>, start: Start): (rest: seq<Start>)
    ensures forall x :: x in rest <==> x in starting && x != start
  {
    assert forall x :: x in Without(starting, Itself, start) <==> x in starting && x != start by {
      forall x ensures x in Without(starting, Itself, start) <==> x in starting && x != start {
        WithoutHolds(starting, Itself, start, x);
      }
    }
    Without(starting, Itself, start)
  }

  /** Team answered a start, `started` when it runs: it is tracked as running unless it was revoked meanwhile. */
  function AnsweredSections(s: Sessions, start: Start, team: TeamId, started: bool): Sessions {
    s.(starting := Awaited(s.starting, start),
       running := if started && start !in s.revoked then s.running[team := start] else s.running)
  }

  /** The revocation marks what is starting and takes what is running, returning what it took. */
  function RevokedSections(s: Sessions, ended: set<Start>): (r: (Sessions, set<Start>)) {
    (s.(revoked := s.revoked + (set start | start in s.starting && start in ended),
        running := map team | team in s.running && s.running[team] !in ended :: s.running[team]),
     set team | team in s.running && s.running[team] in ended :: s.running[team])
  }

  /** Reads the starts one by one, and leaves out the one answered. */
  method Others(starting: seq<Start>, start: Start) returns (kept: seq<Start>)
    ensures kept == Awaited(starting, start)
  {
    kept := [];
    for i := 0 to |starting|
      invariant kept == Without(starting[..i], Itself, start)
    {
      assert Before(starting[..i + 1]) == starting[..i];
      if starting[i] != start {
        kept := kept + [starting[i]];
      }
    }
    assert starting[..|starting|] == starting;
  }

  class Tracker {
    var running: map<TeamId, Start>
    var starting: seq<Start>
    var revoked: set<Start>
    var sessions: map<Start, string>

    function State(): Sessions
      reads this
    {
      Sessions(running, starting, revoked)
    }

    constructor ()
      ensures State() == Sessions(map[], [], {}) && sessions == map[]
    {
      running, starting, revoked, sessions := map[], [], {}, map[];
    }

    /** Tracks a start before Team is asked. */
    method Begin(start: Start)
      modifies this`starting
      ensures starting == old(starting) + [start]
    {
      starting := starting + [start];
    }

    /** Records Team's answer; `cancels` when a running session was revoked while it started. */
    method Answered(start: Start, team: TeamId, started: Option<string>) returns (cancels: bool)
      modifies this
      ensures State() == AnsweredSections(old(State()), start, team, started.Some?)
      ensures running == if started.Some? && start !in old(revoked) then old(running)[team := start] else old(running)
      ensures revoked == old(revoked) && forall other :: other in starting <==> other in old(starting) && other != start
      ensures sessions == if started.Some? then old(sessions)[start := started.value] else old(sessions)
      ensures cancels <==> started.Some? && start in revoked
    {
      starting := Others(starting, start);
      if started.Some? {
        sessions := sessions[start := started.value];
        if start !in revoked {
          running := running[team := start];
        }
      }
      cancels := started.Some? && start in revoked;
    }

    /** The session was saved or cancelled: only that same session stops being tracked. */
    method Finished(team: TeamId, session: string)
      modifies this`running
      ensures running ==
        if team in old(running) && old(running)[team] in sessions && sessions[old(running)[team]] == session
        then old(running) - {team} else old(running)
    {
      if team in running && running[team] in sessions && sessions[running[team]] == session {
        running := running - {team};
      }
    }

    /** Marks every start `ended` names and takes every running session it names, to be cancelled. */
    method Revoke(ended: set<Start>) returns (cancels: set<Start>)
      modifies this`running, this`revoked
      ensures (State(), cancels) == RevokedSections(old(State()), ended)
      ensures starting == old(starting) && sessions == old(sessions)
      ensures forall start :: start in revoked <==> start in old(revoked) || (start in starting && start in ended)
      ensures forall start :: start in cancels <==> start in old(running).Values && start in ended
      ensures forall team :: team in running <==> team in old(running) && old(running)[team] !in ended
      ensures forall team <- running :: running[team] == old(running)[team]
    {
      var i := 0;
      while i < |starting|
        invariant i <= |starting| && unchanged(this`running)
        invariant revoked == old(revoked) + (set start | start in starting[..i] && start in ended)
      {
        if starting[i] in ended {
          revoked := revoked + {starting[i]};
        }
        i := i + 1;
      }
      assert starting[..i] == starting;
      var ids := set team | team in running && running[team] in ended;
      cancels := {};
      var waiting := ids;
      while waiting != {}
        invariant waiting <= ids
        invariant revoked == old(revoked) + (set start | start in starting && start in ended)
        invariant running == map team | team in old(running) && team !in ids - waiting :: old(running)[team]
        invariant cancels == set team | team in ids - waiting :: old(running)[team]
        decreases waiting
      {
        var team :| team in waiting;
        cancels := cancels + {running[team]};
        running := running - {team};
        waiting := waiting - {team};
      }
      assert ids - waiting == ids;
      assert cancels == RevokedSections(old(State()), ended).1;
      assert running == RevokedSections(old(State()), ended).0.running;
    }
  }

  // ---- The whole: Team, the answers on their way, and every revocation ----

  /**
  `teams` names each start's Team; `begun` lists the sessions Team started, in order, and `live` those that still run;
  `answers` are Team's answers not yet handled and `received` the starts Admin knows run or ran. The rest records what
  became of each: finished, displaced by a later start of its Team, named by a revocation, and its Cancel tasks.
  */
  datatype System = System(
    sessions: Sessions,
    teams: map<Start, TeamId>,
    begun: seq<Start>,
    live: map<TeamId, Start>,
    answers: map<Start, bool>,
    handled: set<Start>,
    received: set<Start>,
    finished: set<Start>,
    displaced: set<Start>,
    named: set<Start>,
    cancels: multiset<Start>)

  const INITIAL := System(Sessions(map[], [], {}), map[], [], map[], map[], {}, {}, {}, {}, {}, multiset{})

  datatype Step =
    | Begin(start: Start, team: TeamId)
    | TeamStarts(start: Start)                 // only when the Team's earlier session ended
    | TeamRefuses(start: Start)
    | TeamEnds(team: TeamId)                   // saved, cancelled, or ended by Team's own limit
    | Answer(start: Start, lost: bool)         // Admin handles Team's answer, or its loss
    | Finish(start: Start)                     // Admin learns the session no longer runs
    | Revoke(ended: set<Start>)

  predicate Enabled(s: System, step: Step) {
    match step
    case Begin(start, _) => start !in s.teams
    case TeamStarts(start) =>
      && start in s.teams && start !in s.answers && start !in s.handled && start !in s.begun
      && s.teams[start] !in s.live
    case TeamRefuses(start) => start in s.teams && start !in s.answers && start !in s.handled
    case TeamEnds(team) => team in s.live
    case Answer(start, lost) => start in s.answers
    case Finish(start) => start in s.received && !Live(s, start)
    case Revoke(_) => true
  }

  predicate Live(s: System, start: Start) {
    start in s.teams && s.teams[start] in s.live && s.live[s.teams[start]] == start
  }

  function TeamOf(s: System, start: Start): TeamId {
    if start in s.teams then s.teams[start] else ""
  }

  /** Whether an answer is tracked as running: Team started the session, and nothing revoked it meanwhile. */
  predicate Tracks(s: System, step: Step) {
    step.Answer? && step.start in s.answers && s.answers[step.start] && !step.lost && step.start !in s.sessions.revoked
  }

  function After(s: System, step: Step): System
    requires Enabled(s, step)
  {
    match step
    case Begin(start, team) =>
      s.(teams := s.teams[start := team], sessions := s.sessions.(starting := s.sessions.starting + [start]))
    case TeamStarts(start) =>
      s.(begun := s.begun + [start], live := s.live[TeamOf(s, start) := start], answers := s.answers[start := true])
    case TeamRefuses(start) => s.(answers := s.answers[start := false])
    case TeamEnds(team) => s.(live := s.live - {team})
    case Answer(start, lost) =>
      var team, started := TeamOf(s, start), s.answers[start] && !lost;
      s.(sessions := AnsweredSections(s.sessions, start, team, started),
         answers := s.answers - {start},
         handled := s.handled + {start},
         received := if started then s.received + {start} else s.received,
         displaced := if Tracks(s, step) && team in s.sessions.running then s.displaced + {s.sessions.running[team]}
                      else s.displaced,
         cancels := if started && !Tracks(s, step) then s.cancels + multiset{start} else s.cancels)
    case Finish(start) =>
      var team := TeamOf(s, start);
      if team in s.sessions.running && s.sessions.running[team] == start then
        s.(sessions := s.sessions.(running := s.sessions.running - {team}), finished := s.finished + {start})
      else s
    case Revoke(ended) =>
      var (sessions, cancelled) := RevokedSections(s.sessions, ended);
      s.(sessions := sessions,
         named := s.named + cancelled + (set start | start in s.sessions.starting && start in ended),
         cancels := s.cancels + multiset(cancelled))
  }

  ghost predicate IsRun(states: seq<System>, steps: seq<Step>) {
    && |states| == |steps| + 1
    && states[0] == INITIAL
    && forall i | 0 <= i < |steps| :: Enabled(states[i], steps[i]) && states[i + 1] == After(states[i], steps[i])
  }

  // ---- What every step keeps ----

  /** Every answer and every received session belongs to a start. */
  predicate Known(s: System) {
    forall start <- s.answers.Keys + s.received :: start in s.teams
  }

  /** Where a start is: waiting for its answer, or handled. */
  predicate Placed(s: System) {
    && Known(s)
    && (forall start <- s.sessions.starting :: start in s.teams && start !in s.handled)
    && (forall start <- s.handled :: start in s.teams)
    && (forall start <- s.answers :: start !in s.handled)
    && (forall start <- s.teams :: start !in s.handled ==> start in s.sessions.starting)
    && (forall start <- s.sessions.revoked :: start in s.named)
    && s.received <= s.handled
    && (forall team <- s.sessions.running ::
          && s.sessions.running[team] in s.received
          && s.teams[s.sessions.running[team]] == team
          && s.sessions.running[team] !in s.sessions.revoked)
  }

  predicate Runs(s: System, start: Start) {
    start in s.teams && s.teams[start] in s.sessions.running && s.sessions.running[s.teams[start]] == start
  }

  function One(holds: bool): nat {
    if holds then 1 else 0
  }

  /** Every session Admin knows of is in exactly one place: running, finished, displaced, or cancelled once. */
  predicate Accounted(s: System, start: Start) {
    && (start in s.received ==>
          One(Runs(s, start)) + One(start in s.finished) + One(start in s.displaced) + s.cancels[start] == 1)
    && (start !in s.received ==> s.cancels[start] == 0 && start !in s.finished && start !in s.displaced)
    && (start in s.received ==> (s.cancels[start] == 1 <==> start in s.named))
    && (start in s.named && start !in s.received ==> start in s.sessions.revoked)
  }

  ghost predicate Inv(s: System) {
    Placed(s) && forall start :: Accounted(s, start)
  }

  lemma StepKeepsPlaced(s: System, step: Step)
    requires Inv(s) && Enabled(s, step)
    ensures Placed(After(s, step))
  {
    if step.Answer? {
      AnswerKeepsPlaced(s, step);
    } else if step.Revoke? {
      RevokeKeepsPlaced(s, step);
    }
  }

  lemma AnswerKeepsPlaced(s: System, step: Step)
    requires Inv(s) && step.Answer? && Enabled(s, step)
    ensures Placed(After(s, step))
  {
  }

  lemma RevokeKeepsPlaced(s: System, step: Step)
    requires Inv(s) && step.Revoke? && Enabled(s, step)
    ensures Placed(After(s, step))
  {
  }

  lemma AnswerKeepsAccounted(s: System, step: Step, start: Start)
    requires Placed(s) && Accounted(s, start) && step.Answer? && Enabled(s, step)
    ensures Accounted(After(s, step), start)
  {
    var t, team := After(s, step), TeamOf(s, step.start);
    if start != step.start {
      assert t.cancels[start] == s.cancels[start] && (start in t.received <==> start in s.received);
      assert Runs(t, start) <==> Runs(s, start) && !(Tracks(s, step) && s.teams[start] == team);
    }
  }

  lemma RevokeKeepsAccounted(s: System, step: Step, start: Start)
    requires Placed(s) && Accounted(s, start) && step.Revoke?
    ensures Accounted(After(s, step), start)
  {
    var t := After(s, step);
    var cancelled := RevokedSections(s.sessions, step.ended).1;
    assert start in cancelled <==> Runs(s, start) && start in step.ended by {
      if start in cancelled {
        var team :| team in s.sessions.running && s.sessions.running[team] == start;
        assert s.teams[start] == team;
      }
    }
    assert t.cancels[start] == s.cancels[start] + One(start in cancelled);
  }

  lemma StepKeepsAccounted(s: System, step: Step, start: Start)
    requires Inv(s) && Enabled(s, step)
    ensures Accounted(After(s, step), start)
  {
    assert Accounted(s, start);
    if step.Answer? {
      AnswerKeepsAccounted(s, step, start);
    } else if step.Revoke? {
      RevokeKeepsAccounted(s, step, start);
    }
  }

  lemma {:induction false} RunKeepsInv(states: seq<System>, steps: seq<Step>, n: nat)
    requires IsRun(states, steps) && n < |states|
    ensures Inv(states[n])
  {
    if n > 0 {
      RunKeepsInv(states, steps, n - 1);
      StepKeepsPlaced(states[n - 1], steps[n - 1]);
      forall start ensures Accounted(states[n], start) {
        StepKeepsAccounted(states[n - 1], steps[n - 1], start);
      }
    }
  }

  // ---- The guarantees of every run, whatever order answers are handled in ----

  /**
  A session Team started and Admin heard of gets exactly one Cancel task when a revocation named it while it started or
  ran, and none otherwise; a start Team refused, or whose answer was lost, gets none.
  */
  lemma RevokedIsCancelledOnce(states: seq<System>, steps: seq<Step>, n: nat, start: Start)
    requires IsRun(states, steps) && n < |states|
    ensures states[n].cancels[start] == One(start in states[n].received && start in states[n].named)
  {
    RunKeepsInv(states, steps, n);
    assert Accounted(states[n], start);
  }

  /** A start revoked while Team was still asked never runs in the tracker, then or later. */
  lemma RevokedWhileStartingNeverRuns(states: seq<System>, steps: seq<Step>, n: nat, start: Start)
    requires IsRun(states, steps) && n < |states| && start in states[n].sessions.revoked
    ensures !Runs(states[n], start)
  {
    RunKeepsInv(states, steps, n);
  }

  lemma {:induction false} RevokedStays(states: seq<System>, steps: seq<Step>, m: nat, n: nat, start: Start)
    requires IsRun(states, steps) && m <= n < |states| && start in states[m].sessions.revoked
    ensures start in states[n].sessions.revoked && !Runs(states[n], start)
  {
    if m < n {
      RevokedStays(states, steps, m, n - 1, start);
    }
    RevokedWhileStartingNeverRuns(states, steps, n, start);
  }

  lemma {:induction false} NamedStays(states: seq<System>, steps: seq<Step>, m: nat, n: nat, start: Start)
    requires IsRun(states, steps) && m <= n < |states| && start in states[m].named
    ensures start in states[n].named
  {
    if m < n {
      NamedStays(states, steps, m, n - 1, start);
    }
  }

  lemma {:induction false} GoneStays(states: seq<System>, steps: seq<Step>, m: nat, n: nat, start: Start)
    requires IsRun(states, steps) && m <= n < |states| && start in states[m].finished + states[m].displaced
    ensures start in states[n].finished + states[n].displaced
  {
    if m < n {
      GoneStays(states, steps, m, n - 1, start);
    }
  }

  /** Only a revocation that named a start marks it or gives its session a Cancel task. */
  lemma {:induction false} NamedByARevocation(states: seq<System>, steps: seq<Step>, n: nat, start: Start)
    requires IsRun(states, steps) && n < |states| && start in states[n].named
    ensures exists m | 0 <= m < n :: steps[m].Revoke? && start in steps[m].ended
  {
    if start in states[n - 1].named {
      NamedByARevocation(states, steps, n - 1, start);
    } else {
      assert steps[n - 1].Revoke? && start in steps[n - 1].ended;
    }
  }

  /** Only what Admin was told, that the very session runs no more, ends its tracking without a task. */
  lemma {:induction false} FinishedByItsEnd(states: seq<System>, steps: seq<Step>, n: nat, start: Start)
    requires IsRun(states, steps) && n < |states| && start in states[n].finished
    ensures exists m | 0 <= m < n :: steps[m] == Finish(start) && !Live(states[m], start)
  {
    if start in states[n - 1].finished {
      FinishedByItsEnd(states, steps, n - 1, start);
    } else {
      assert steps[n - 1] == Finish(start) && !Live(states[n - 1], start);
    }
  }

  /** Told that a session ended, the tracker holds it no more. */
  lemma FinishEndsTracking(s: System, start: Start)
    requires Inv(s) && Runs(s, start) && Enabled(s, Finish(start))
    ensures var next := After(s, Finish(start));
      && !Runs(next, start) && start in next.finished && next.cancels == s.cancels
      && forall other | other != start && Runs(s, other) :: Runs(next, other)
  {
  }

  /** A revocation names a start while the tracker waits for its answer or runs it, and then only. */
  lemma RevocationNames(s: System, ended: set<Start>, start: Start)
    requires Inv(s) && start in ended && start in s.teams
    requires start !in s.handled || start in s.received
    ensures start in After(s, Revoke(ended)).named <==> start !in s.finished + s.displaced
  {
    assert Accounted(s, start);
  }

  /**
  Ending the authority of a start Team was asked for gets its session exactly one Cancel task, whenever Admin hears of
  it, unless the session was already finished or displaced: then none ever.
  */
  lemma EndedAuthorityCancels(states: seq<System>, steps: seq<Step>, m: nat, n: nat, start: Start)
    requires IsRun(states, steps) && m < n < |states| && steps[m].Revoke? && start in steps[m].ended
    requires start in states[m].teams && (start !in states[m].handled || start in states[m].received)
    requires start in states[n].received
    ensures states[n].cancels[start] == One(start !in states[m].finished + states[m].displaced)
  {
    RunKeepsInv(states, steps, m);
    RunKeepsInv(states, steps, n);
    RevocationNames(states[m], steps[m].ended, start);
    assert Accounted(states[n], start);
    if start in states[m].finished + states[m].displaced {
      GoneStays(states, steps, m, n, start);
    } else {
      NamedStays(states, steps, m + 1, n, start);
    }
  }

  // ---- A session Team still runs ----

  /** What Team runs it began, and what Admin received or will hear of, Team began. */
  predicate BegunFirst(s: System) {
    && (forall start <- s.begun :: start in s.teams)
    && (forall start <- s.received :: start in s.begun)
    && (forall start <- s.answers :: s.answers[start] ==> start in s.begun)
    && (forall team <- s.live :: s.live[team] in s.begun && s.teams[s.live[team]] == team)
  }

  /** A session Admin learned is over runs no more. */
  predicate FinishedIsOver(s: System) {
    forall start <- s.finished :: start in s.received && !Live(s, start)
  }

  lemma StepKeepsBegunFirst(s: System, step: Step)
    requires Placed(s) && BegunFirst(s) && Enabled(s, step)
    ensures BegunFirst(After(s, step))
  {
  }

  lemma StepKeepsFinishedIsOver(s: System, step: Step)
    requires Placed(s) && BegunFirst(s) && FinishedIsOver(s) && Enabled(s, step)
    ensures FinishedIsOver(After(s, step))
  {
    forall start <- After(s, step).finished ensures !Live(After(s, step), start) {
      assert !Live(s, start) && start in s.begun;
    }
  }

  lemma {:induction false} RunKeepsOver(states: seq<System>, steps: seq<Step>, n: nat)
    requires IsRun(states, steps) && n < |states|
    ensures Inv(states[n]) && BegunFirst(states[n]) && FinishedIsOver(states[n])
  {
    RunKeepsInv(states, steps, n);
    if n > 0 {
      RunKeepsOver(states, steps, n - 1);
      StepKeepsBegunFirst(states[n - 1], steps[n - 1]);
      StepKeepsFinishedIsOver(states[n - 1], steps[n - 1]);
    }
  }

  /** The answer of another start of the Team is tracked over a session that runs. */
  predicate DisplacesBy(s: System, step: Step, start: Start) {
    Tracks(s, step) && step.start != start && Runs(s, start) && TeamOf(s, step.start) == s.teams[start]
  }

  lemma StepDisplaces(s: System, step: Step, start: Start)
    requires Placed(s) && Enabled(s, step)
    ensures start in After(s, step).displaced <==> start in s.displaced || DisplacesBy(s, step, start)
  {
  }

  lemma RunDisplaces(states: seq<System>, steps: seq<Step>, k: nat, start: Start)
    requires IsRun(states, steps) && k < |steps|
    ensures start in states[k + 1].displaced <==>
            start in states[k].displaced || DisplacesBy(states[k], steps[k], start)
  {
    RunKeepsInv(states, steps, k);
    StepDisplaces(states[k], steps[k], start);
  }

  lemma {:induction false} DisplacedWasOvertaken(states: seq<System>, steps: seq<Step>, n: nat, start: Start)
    requires IsRun(states, steps) && n < |states|
    ensures start in states[n].displaced <==> exists m | 0 <= m < n :: DisplacesBy(states[m], steps[m], start)
  {
    if n > 0 {
      DisplacedWasOvertaken(states, steps, n - 1, start);
      RunDisplaces(states, steps, n - 1, start);
    }
  }

  /**
  Revoking the authority of a session that still runs at Team, and that Admin heard of, leaves it with its one Cancel
  task if and only if no answer of another start of its Team was tracked over it before.
  */
  lemma RevokingALiveSessionCancelsIt(states: seq<System>, steps: seq<Step>, n: nat, start: Start)
    requires IsRun(states, steps) && n < |steps| && steps[n].Revoke? && start in steps[n].ended
    requires start in states[n].received && Live(states[n], start)
    ensures states[n + 1].cancels[start] == 1 <==>
            !exists m | 0 <= m < n :: DisplacesBy(states[m], steps[m], start)
  {
    RunKeepsOver(states, steps, n);
    EndedAuthorityCancels(states, steps, n, n + 1, start);
    DisplacedWasOvertaken(states, steps, n, start);
  }

  // ---- Answers handled in order ----

  /** Whether a later session of the same Team was handled already. */
  predicate Overtaken(s: System, start: Start) {
    exists i, j :: 0 <= i < j < |s.begun| && s.begun[i] == start && s.begun[j] in s.handled
      && start in s.teams && s.begun[j] in s.teams && s.teams[s.begun[j]] == s.teams[start]
  }

  /** Admin handles one Team's answers in the order Team started their sessions. */
  ghost predicate InOrder(states: seq<System>, steps: seq<Step>)
    requires |states| == |steps| + 1
  {
    forall i | 0 <= i < |steps| && steps[i].Answer? :: !Overtaken(states[i], steps[i].start)
  }

  /** Team's live session of each Team is the last it began of it. */
  predicate LastLives(s: System) {
    forall i, j | 0 <= i < j < |s.begun| && Live(s, s.begun[i]) :: s.teams[s.begun[i]] != TeamOf(s, s.begun[j])
  }

  lemma StartKeepsLastLives(s: System, step: Step)
    requires BegunFirst(s) && LastLives(s) && step.TeamStarts? && Enabled(s, step)
    ensures LastLives(After(s, step))
  {
    var t := After(s, step);
    forall i, j | 0 <= i < j < |t.begun| && Live(t, t.begun[i]) ensures t.teams[t.begun[i]] != TeamOf(t, t.begun[j]) {
      assert t.begun[i] == s.begun[i] && s.begun[i] in s.begun;
      assert Live(s, s.begun[i]);
    }
  }

  lemma StepKeepsLastLives(s: System, step: Step)
    requires BegunFirst(s) && LastLives(s) && Enabled(s, step)
    ensures LastLives(After(s, step))
  {
    if step.TeamStarts? {
      StartKeepsLastLives(s, step);
    } else {
      var t := After(s, step);
      forall i, j | 0 <= i < j < |t.begun| && Live(t, t.begun[i]) ensures t.teams[t.begun[i]] != TeamOf(t, t.begun[j]) {
        assert s.begun[i] in s.begun && s.begun[j] in s.begun;
        assert Live(s, s.begun[i]);
      }
    }
  }

  lemma {:induction false} RunKeepsLastLives(states: seq<System>, steps: seq<Step>, n: nat)
    requires IsRun(states, steps) && n < |states|
    ensures LastLives(states[n])
  {
    if n > 0 {
      RunKeepsLastLives(states, steps, n - 1);
      RunKeepsOver(states, steps, n - 1);
      StepKeepsLastLives(states[n - 1], steps[n - 1]);
    }
  }

  lemma LivedBefore(s: System, step: Step, start: Start)
    requires BegunFirst(s) && Enabled(s, step) && start in s.begun && Live(After(s, step), start)
    ensures Live(s, start)
  {
  }

  lemma RunLivedBefore(states: seq<System>, steps: seq<Step>, k: nat, start: Start)
    requires IsRun(states, steps) && k < |steps| && start in states[k].begun && Live(states[k + 1], start)
    ensures Live(states[k], start)
  {
    RunKeepsOver(states, steps, k);
    LivedBefore(states[k], steps[k], start);
  }

  /** A session that lives now lived ever since Team began it. */
  lemma {:induction false} LivesSince(states: seq<System>, steps: seq<Step>, m: nat, n: nat, start: Start)
    requires IsRun(states, steps) && m <= n < |states| && start in states[m].begun && Live(states[n], start)
    ensures Live(states[m], start)
  {
    if m < n {
      LivedOneBefore(states, steps, m, n, start);
      LivesSince(states, steps, m, n - 1, start);
    }
  }

  lemma LivedOneBefore(states: seq<System>, steps: seq<Step>, m: nat, n: nat, start: Start)
    requires IsRun(states, steps) && m < n < |states| && start in states[m].begun && Live(states[n], start)
    ensures Live(states[n - 1], start)
  {
    BegunStays(states, steps, m, n - 1, start);
    RunLivedBefore(states, steps, n - 1, start);
  }

  lemma {:induction false} BegunStays(states: seq<System>, steps: seq<Step>, m: nat, n: nat, start: Start)
    requires IsRun(states, steps) && m <= n < |states| && start in states[m].begun
    ensures start in states[n].begun
  {
    if m < n {
      BegunStays(states, steps, m, n - 1, start);
    }
  }

  /** A live session is its Team's last, so no answer handled in order is tracked over it. */
  lemma InOrderDisplacesNoLive(s: System, step: Step, start: Start)
    requires Placed(s) && BegunFirst(s) && LastLives(s) && Enabled(s, step)
    requires Live(s, start) && DisplacesBy(s, step, start)
    ensures Overtaken(s, step.start)
  {
    var i :| 0 <= i < |s.begun| && s.begun[i] == step.start;
    var j :| 0 <= j < |s.begun| && s.begun[j] == start;
    assert i < j;
  }

  /** When one Team's answers are handled in order, a revocation cancels every session that still runs at Team. */
  lemma InOrderRevocationCancels(states: seq<System>, steps: seq<Step>, n: nat, start: Start)
    requires IsRun(states, steps) && InOrder(states, steps)
    requires n < |steps| && steps[n].Revoke? && start in steps[n].ended
    requires start in states[n].received && Live(states[n], start)
    ensures states[n + 1].cancels[start] == 1
  {
    forall m | 0 <= m < n && DisplacesBy(states[m], steps[m], start) ensures false {
      RunKeepsOver(states, steps, m);
      RunKeepsLastLives(states, steps, m);
      LivesSince(states, steps, m, n, start);
      InOrderDisplacesNoLive(states[m], steps[m], start);
    }
    RevokingALiveSessionCancelsIt(states, steps, n, start);
  }

  // ---- A live session no revocation cancels ----

  ghost predicate RunTo(run: (seq<System>, seq<Step>), last: System) {
    IsRun(run.0, run.1) && run.0[|run.0| - 1] == last
  }

  lemma Extended(run: (seq<System>, seq<Step>), last: System, step: Step, next: System)
    returns (longer: (seq<System>, seq<Step>))
    requires RunTo(run, last) && Enabled(last, step) && next == After(last, step)
    ensures RunTo(longer, next)
  {
    longer := (run.0 + [next], run.1 + [step]);
  }

  /** Two sessions of one Team, the first ended before the second began, both answers still on their way. */
  lemma TwoStarts(team: TeamId) returns (run: (seq<System>, seq<Step>), last: System)
    ensures RunTo(run, last)
    ensures last == INITIAL.(sessions := Sessions(map[], [1, 2], {}), teams := map[1 := team, 2 := team],
                             begun := [1, 2], live := map[team := 2], answers := map[1 := true, 2 := true])
  {
    var s := INITIAL;
    run := ([s], []);
    var s1 := s.(sessions := Sessions(map[], [1], {}), teams := map[1 := team]);
    assert s.sessions.starting + [1] == [1];
    run := Extended(run, s, Begin(1, team), s1);
    var s2 := s1.(sessions := Sessions(map[], [1, 2], {}), teams := map[1 := team, 2 := team]);
    run := Extended(run, s1, Begin(2, team), s2);
    var s3 := s2.(begun := [1], live := map[team := 1], answers := map[1 := true]);
    assert s2.begun + [1] == [1];
    run := Extended(run, s2, TeamStarts(1), s3);
    var s4 := s3.(live := map[]);
    assert s3.live - {team} == map[];
    run := Extended(run, s3, TeamEnds(team), s4);
    last := s4.(begun := [1, 2], live := map[team := 2], answers := map[1 := true, 2 := true]);
    run := Extended(run, s4, TeamStarts(2), last);
  }

  /** The two answers are handled in the other order: the ended session displaces the live one. */
  lemma HandledInTheOtherOrder(team: TeamId) returns (run: (seq<System>, seq<Step>), last: System)
    ensures RunTo(run, last)
    ensures last == INITIAL.(sessions := Sessions(map[team := 1], [], {}), teams := map[1 := team, 2 := team],
                             begun := [1, 2], live := map[team := 2], handled := {1, 2}, received := {1, 2},
                             displaced := {2})
  {
    var s;
    run, s := TwoStarts(team);
    var s1 := s.(sessions := Sessions(map[team := 2], [1], {}), answers := map[1 := true], handled := {2},
                 received := {2});
    assert AnsweredSections(s.sessions, 2, team, true) == s1.sessions by {
      assert Awaited([1, 2], 2) == [1];
    }
    assert s.answers - {2} == s1.answers;
    run := Extended(run, s, Answer(2, false), s1);
    last := s1.(sessions := Sessions(map[team := 1], [], {}), answers := map[], handled := {1, 2}, received := {1, 2},
                displaced := {2});
    assert AnsweredSections(s1.sessions, 1, team, true) == last.sessions by {
      assert Awaited([1], 1) == [];
    }
    assert s1.answers - {1} == last.answers;
    run := Extended(run, s1, Answer(1, false), last);
  }

  /** Revoking the displaced session's authority then cancels nothing, although Team still runs it. */
  lemma OvertakenAnswerEscapesRevocation(team: TeamId) returns (run: (seq<System>, seq<Step>), last: System)
    ensures RunTo(run, last)
    ensures |run.1| > 0 && run.1[|run.1| - 1] == Revoke({2})
    ensures 2 in last.received && Live(last, 2) && last.cancels[2] == 0
  {
    run, last := HandledInTheOtherOrder(team);
    var revoked := RevokedSections(last.sessions, {2});
    assert revoked.0.running == last.sessions.running && revoked.0.revoked == {} && revoked.1 == {};
    assert After(last, Revoke({2})) == last;
    run := (run.0 + [last], run.1 + [Revoke({2})]);
  }
}
