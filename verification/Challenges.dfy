/**
The challenges of frozen Routine runs: at most one open for a Team, always of the Team's latest opening; rejected
answers that reopen one; and the openings in flight. Each call is one step.
*/
module Challenges {
  import opened Lists
  import opened Wrappers

  const MAX_OPEN_CHALLENGES: nat := 64
  const MAX_TRACKED_GENERATIONS: nat := 4 * MAX_OPEN_CHALLENGES
  const MAX_OPENING_TEAMS: nat := MAX_OPEN_CHALLENGES

  type Team = string

  /** The frozen request an answer continues, as its text. */
  type Request = string

  datatype Key = Key(team: Team, run: string, challenge: string)

  /** One opened challenge: what an answer names, when it expires, and the request it answers. */
  datatype Open = Open(key: Key, deadline: int, request: Request)

  /** A Team and the number of its latest opening. */
  datatype Generation = Generation(team: Team, number: nat)

  // ---- The whole history ----

  /** The number of the Team's latest opening, counting every opening from one; none is zero. */
  function Latest(log: seq<Open>, team: Team): (number: nat)
    ensures number <= |log| && (number > 0 ==> log[number - 1].key.team == team)
  {
    if log == [] then 0
    else if log[|log| - 1].key.team == team then |log|
    else Latest(log[..|log| - 1], team)
  }

  /** Every Team ever opened, the least recently opened first, with its latest opening. */
  function Recent(log: seq<Open>): seq<Generation> {
    if log == [] then []
    else
      Without(Recent(log[..|log| - 1]), TeamOf, log[|log| - 1].key.team) +
      [Generation(log[|log| - 1].key.team, |log|)]
  }

  function TeamOf(generation: Generation): Team {
    generation.team
  }

  ghost predicate OnePerTeam(generations: seq<Generation>) {
    DistinctBy(generations, TeamOf)
  }

  lemma {:induction false} RecentIsOnePerTeam(log: seq<Open>)
    ensures OnePerTeam(Recent(log))
  {
    if log != [] {
      var before, team := Recent(log[..|log| - 1]), log[|log| - 1].key.team;
      RecentIsOnePerTeam(log[..|log| - 1]);
      WithoutStaysDistinct(before, TeamOf, team);
      forall g <- Without(before, TeamOf, team) ensures g.team != team {
        WithoutHolds(before, TeamOf, team, g);
      }
    }
  }

  /** The list names exactly the Teams ever opened, each with its latest opening. */
  lemma {:induction false} RecentIsLatest(log: seq<Open>, g: Generation)
    ensures g in Recent(log) <==> g.number > 0 && g.number == Latest(log, g.team)
  {
    if log != [] {
      RecentIsLatest(log[..|log| - 1], g);
      WithoutHolds(Recent(log[..|log| - 1]), TeamOf, log[|log| - 1].key.team, g);
    }
  }

  /** The last of a list, as many as fit. */
  function LastOf<T>(list: seq<T>, most: nat): (last: seq<T>)
    ensures |last| == if |list| <= most then |list| else most
  {
    if |list| <= most then list else list[|list| - most..]
  }

  /** Keeping the newest generations and forgetting the oldest keeps what the whole list keeps last. */
  lemma NewestStayNewest(older: seq<Generation>, kept: seq<Generation>, latest: Generation)
    requires OnePerTeam(kept) && |kept| <= MAX_TRACKED_GENERATIONS
    requires older != [] ==> |kept| == MAX_TRACKED_GENERATIONS
    ensures LastOf(Without(kept, TeamOf, latest.team) + [latest], MAX_TRACKED_GENERATIONS)
            == LastOf(Without(older + kept, TeamOf, latest.team) + [latest], MAX_TRACKED_GENERATIONS)
  {
    if older == [] {
      assert older + kept == kept;
    } else {
      WithoutSplits(older, kept, TeamOf, latest.team);
      WithoutDropsOne(kept, TeamOf, latest.team);
      var head, tail := Without(older, TeamOf, latest.team), Without(kept, TeamOf, latest.team) + [latest];
      assert Without(older + kept, TeamOf, latest.team) + [latest] == head + tail;
      LastOfTail(head, tail, MAX_TRACKED_GENERATIONS);
    }
  }

  lemma LastOfTail<T>(head: seq<T>, tail: seq<T>, most: nat)
    requires |tail| >= most
    ensures LastOf(head + tail, most) == LastOf(tail, most)
  {
  }

  // ---- When an opening is still tracked ----

  function OpenedSince(log: seq<Open>, number: nat): set<Team> {
    set i | number <= i < |log| :: log[i].key.team
  }

  lemma {:induction false} LatestIsLast(log: seq<Open>, team: Team, number: nat)
    ensures Latest(log, team) > number <==> team in OpenedSince(log, number)
  {
    if log != [] {
      var before := log[..|log| - 1];
      LatestIsLast(before, team, number);
      assert forall i | number <= i < |before| :: before[i] == log[i];
      if log[|log| - 1].key.team != team && team in OpenedSince(log, number) {
        var i :| number <= i < |log| && log[i].key.team == team;
        assert before[i].key.team == team;
      }
    }
  }

  ghost predicate NumbersRise(generations: seq<Generation>) {
    forall i, j | 0 <= i < j < |generations| :: generations[i].number < generations[j].number
  }

  lemma {:induction false} WithoutStaysRising(generations: seq<Generation>, team: Team)
    requires NumbersRise(generations)
    ensures NumbersRise(Without(generations, TeamOf, team))
  {
    if generations != [] {
      var rest := generations[..|generations| - 1];
      WithoutStaysRising(rest, team);
      forall g <- Without(rest, TeamOf, team) ensures g.number < generations[|generations| - 1].number {
        WithoutHolds(rest, TeamOf, team, g);
        var i :| 0 <= i < |rest| && rest[i] == g;
        assert generations[i] == g;
      }
    }
  }

  lemma {:induction false} RecentRises(log: seq<Open>)
    ensures NumbersRise(Recent(log)) && forall g <- Recent(log) :: g.number <= |log|
  {
    if log != [] {
      var before, team := Recent(log[..|log| - 1]), log[|log| - 1].key.team;
      RecentRises(log[..|log| - 1]);
      WithoutStaysRising(before, team);
      forall g <- Without(before, TeamOf, team) ensures g in before {
        WithoutHolds(before, TeamOf, team, g);
      }
    }
  }

  function Teams(generations: seq<Generation>): set<Team> {
    set g | g in generations :: g.team
  }

  lemma {:induction false} TeamsCount(generations: seq<Generation>)
    requires OnePerTeam(generations)
    ensures |Teams(generations)| == |generations|
  {
    if generations != [] {
      var rest, last := generations[..|generations| - 1], generations[|generations| - 1];
      TeamsCount(rest);
      assert generations == rest + [last];
      assert Teams(generations) == Teams(rest) + {last.team};
    }
  }

  lemma NewerTeams(log: seq<Open>, k: nat)
    requires k < |Recent(log)|
    ensures Teams(Recent(log)[k + 1..]) == OpenedSince(log, Recent(log)[k].number)
  {
    var recent := Recent(log);
    var newer, number := recent[k + 1..], recent[k].number;
    RecentRises(log);
    forall team ensures team in Teams(newer) <==> team in OpenedSince(log, number) {
      LatestIsLast(log, team, number);
      RecentIsLatest(log, Generation(team, Latest(log, team)));
      if team in OpenedSince(log, number) {
        var j :| 0 <= j < |recent| && recent[j] == Generation(team, Latest(log, team));
        assert newer[j - k - 1] == recent[j];
      }
      if team in Teams(newer) {
        var g :| g in newer && g.team == team;
        RecentIsLatest(log, g);
      }
    }
  }

  /** A Team's latest opening is tracked until 256 other Teams were opened after it. */
  lemma TrackedUntilManyOpened(log: seq<Open>, team: Team)
    requires Latest(log, team) > 0
    ensures var number := Latest(log, team);
      Generation(team, number) in LastOf(Recent(log), MAX_TRACKED_GENERATIONS) <==>
      |OpenedSince(log, number)| < MAX_TRACKED_GENERATIONS
  {
    var recent, g := Recent(log), Generation(team, Latest(log, team));
    RecentIsLatest(log, g);
    RecentIsOnePerTeam(log);
    var k :| 0 <= k < |recent| && recent[k] == g;
    NewerTeams(log, k);
    TeamsCount(recent[k + 1..]);
    var last := LastOf(recent, MAX_TRACKED_GENERATIONS);
    if k >= |recent| - |last| {
      assert last[k - (|recent| - |last|)] == g;
    }
  }

  /** As many openings as there are numbers below `many`, each of another Team, whose name is longer than `team`. */
  function Others(team: Team, request: Request, many: nat): seq<Open> {
    seq(many, i requires 0 <= i < many => Open(Key(team + Repeated(i + 1), "", ""), 0, request))
  }

  function Repeated(n: nat): (s: string)
    ensures |s| == n
  {
    seq(n, _ => 'a')
  }

  lemma {:induction false} OthersAreOthers(open: Open, many: nat)
    ensures Latest([open] + Others(open.key.team, open.request, many), open.key.team) == 1
  {
    var log := [open] + Others(open.key.team, open.request, many);
    if many > 0 {
      OthersAreOthers(open, many - 1);
      assert log[..|log| - 1] == [open] + Others(open.key.team, open.request, many - 1);
    }
  }

  function OtherTeams(open: Open, many: nat): set<Team> {
    OpenedSince([open] + Others(open.key.team, open.request, many), 1)
  }

  /** One more opening brings one more Team, whose name is longer than those before it. */
  lemma OneMoreOther(open: Open, many: nat)
    requires many > 0
    ensures OtherTeams(open, many) == OtherTeams(open, many - 1) + {open.key.team + Repeated(many)}
  {
    var shorter := [open] + Others(open.key.team, open.request, many - 1);
    var log := [open] + Others(open.key.team, open.request, many);
    assert log[|log| - 1].key.team == open.key.team + Repeated(many);
    assert forall i | 1 <= i < |log| - 1 :: log[i] == shorter[i];
  }

  function Longer(team: Team, many: nat): set<Team> {
    if many == 0 then {} else Longer(team, many - 1) + {team + Repeated(many)}
  }

  lemma {:induction false} LongerCount(team: Team, many: nat)
    ensures |Longer(team, many)| == many && forall other <- Longer(team, many) :: |other| <= |team| + many
  {
    if many > 0 {
      LongerCount(team, many - 1);
      assert team + Repeated(many) !in Longer(team, many - 1);
    }
  }

  lemma {:induction false} SameSteps(one: nat -> set<Team>, other: nat -> set<Team>, many: nat)
    requires one(0) == other(0) && forall k: nat | 0 < k <= many && one(k - 1) == other(k - 1) :: one(k) == other(k)
    ensures one(many) == other(many)
  {
    if many > 0 {
      SameSteps(one, other, many - 1);
    }
  }

  lemma OthersCount(open: Open, many: nat)
    ensures |OtherTeams(open, many)| == many
  {
    forall k: nat | 0 < k <= many && OtherTeams(open, k - 1) == Longer(open.key.team, k - 1)
      ensures OtherTeams(open, k) == Longer(open.key.team, k)
    {
      OneMoreOther(open, k);
    }
    SameSteps((k: nat) => OtherTeams(open, k), (k: nat) => Longer(open.key.team, k), many);
    LongerCount(open.key.team, many);
  }

  /** The 256 other Teams after which a challenge whose Team opened nothing newer is no longer tracked. */
  lemma ManyOpeningsForget(open: Open)
    ensures var log := [open] + Others(open.key.team, open.request, MAX_TRACKED_GENERATIONS);
      && Latest(log, open.key.team) == 1 && |OpenedSince(log, 1)| == MAX_TRACKED_GENERATIONS
      && Generation(open.key.team, 1) !in LastOf(Recent(log), MAX_TRACKED_GENERATIONS)
  {
    OthersAreOthers(open, MAX_TRACKED_GENERATIONS);
    OthersCount(open, MAX_TRACKED_GENERATIONS);
    TrackedUntilManyOpened([open] + Others(open.key.team, open.request, MAX_TRACKED_GENERATIONS), open.key.team);
  }

  // ---- The open challenges ----

  predicate Stays(item: Open, now: int, team: Team) {
    item.deadline > now && item.key.team != team
  }

  function Retained(open: seq<Open>, now: int, team: Team): seq<Open> {
    if open == [] then []
    else
      var last := open[|open| - 1];
      Retained(open[..|open| - 1], now, team) + (if Stays(last, now, team) then [last] else [])
  }

  /** What storing a challenge leaves open: no expired one, no other of its Team, and at capacity not the oldest. */
  function Stored(open: seq<Open>, now: int, item: Open): seq<Open> {
    var kept := Retained(open, now, item.key.team);
    (if |kept| >= MAX_OPEN_CHALLENGES then kept[1..] else kept) + [item]
  }

  ghost predicate LatestOf(item: Open, log: seq<Open>) {
    Latest(log, item.key.team) > 0 && log[Latest(log, item.key.team) - 1] == item
  }

  /** Every open challenge is its Team's latest opening, unchanged, and no Team has two. */
  ghost predicate AllLatest(open: seq<Open>, log: seq<Open>) {
    && |open| <= MAX_OPEN_CHALLENGES
    && (forall i, j | 0 <= i < j < |open| :: open[i].key.team != open[j].key.team)
    && forall i | 0 <= i < |open| :: LatestOf(open[i], log)
  }

  lemma {:induction false} RetainedHold(open: seq<Open>, now: int, team: Team)
    ensures |Retained(open, now, team)| <= |open|
    ensures forall item :: item in Retained(open, now, team) <==> item in open && Stays(item, now, team)
  {
    if open != [] {
      assert open == open[..|open| - 1] + [open[|open| - 1]];
      RetainedHold(open[..|open| - 1], now, team);
    }
  }

  lemma {:induction false} RetainedDiffer(open: seq<Open>, now: int, team: Team)
    requires forall i, j | 0 <= i < j < |open| :: open[i].key.team != open[j].key.team
    ensures var kept := Retained(open, now, team);
      forall i, j | 0 <= i < j < |kept| :: kept[i].key.team != kept[j].key.team
  {
    if open != [] {
      var rest, last := open[..|open| - 1], open[|open| - 1];
      RetainedDiffer(rest, now, team);
      RetainedHold(rest, now, team);
      forall i | 0 <= i < |Retained(rest, now, team)| ensures Retained(rest, now, team)[i].key.team != last.key.team {
        assert Retained(rest, now, team)[i] in rest;
      }
    }
  }

  lemma RetainedAreLatest(open: seq<Open>, log: seq<Open>, now: int, team: Team)
    requires AllLatest(open, log)
    ensures AllLatest(Retained(open, now, team), log) && |Retained(open, now, team)| <= |open|
    ensures forall item :: item in Retained(open, now, team) <==> item in open && Stays(item, now, team)
  {
    RetainedHold(open, now, team);
    RetainedDiffer(open, now, team);
    forall i | 0 <= i < |Retained(open, now, team)| ensures LatestOf(Retained(open, now, team)[i], log) {
      assert Retained(open, now, team)[i] in open;
    }
  }

  /** Whether storing at capacity drops this challenge: it is the oldest of those that would stay. */
  ghost predicate GivesWay(open: seq<Open>, now: int, item: Open, other: Open) {
    var kept := Retained(open, now, item.key.team);
    |kept| >= MAX_OPEN_CHALLENGES && other == kept[0] && other !in kept[1..]
  }

  lemma StoredHolds(open: seq<Open>, now: int, item: Open)
    ensures var kept := Retained(open, now, item.key.team);
      forall other :: other in Stored(open, now, item) <==>
        other == item || (other in kept && !GivesWay(open, now, item, other))
  {
    var kept := Retained(open, now, item.key.team);
    if |kept| >= MAX_OPEN_CHALLENGES {
      assert kept == [kept[0]] + kept[1..];
    }
  }

  lemma StoredAreLatest(open: seq<Open>, log: seq<Open>, now: int, item: Open)
    requires AllLatest(open, log) && LatestOf(item, log)
    ensures AllLatest(Stored(open, now, item), log)
    ensures forall other :: other in Stored(open, now, item) <==>
              other == item || (other in open && Stays(other, now, item.key.team)
                                && !GivesWay(open, now, item, other))
  {
    RetainedAreLatest(open, log, now, item.key.team);
    StoredHolds(open, now, item);
    OthersRetained(open, now, item.key.team);
    OneMoreIsLatest(Retained(open, now, item.key.team), log, item);
  }

  lemma OthersRetained(open: seq<Open>, now: int, team: Team)
    ensures var kept := Retained(open, now, team); forall i | 0 <= i < |kept| :: kept[i].key.team != team
  {
    var kept := Retained(open, now, team);
    RetainedHold(open, now, team);
    forall i | 0 <= i < |kept| ensures kept[i].key.team != team {
      assert kept[i] in kept;
    }
  }

  /** Challenges of other Teams, at capacity without the first, and the one now stored. */
  lemma OneMoreIsLatest(kept: seq<Open>, log: seq<Open>, item: Open)
    requires AllLatest(kept, log) && LatestOf(item, log)
    requires forall i | 0 <= i < |kept| :: kept[i].key.team != item.key.team
    ensures AllLatest((if |kept| >= MAX_OPEN_CHALLENGES then kept[1..] else kept) + [item], log)
  {
  }

  lemma StayLatest(kept: seq<Open>, log: seq<Open>, item: Open)
    requires AllLatest(kept, log) && forall i | 0 <= i < |kept| :: kept[i].key.team != item.key.team
    ensures AllLatest(kept, log + [item]) && LatestOf(item, log + [item])
  {
    assert (log + [item])[..|log|] == log;
    forall i | 0 <= i < |kept| ensures LatestOf(kept[i], log + [item]) {
      assert LatestOf(kept[i], log);
    }
  }

  lemma OpenedAreLatest(open: seq<Open>, log: seq<Open>, now: int, item: Open)
    requires AllLatest(open, log)
    ensures AllLatest(Stored(open, now, item), log + [item])
  {
    RetainedAreLatest(open, log, now, item.key.team);
    OthersRetained(open, now, item.key.team);
    StayLatest(Retained(open, now, item.key.team), log, item);
    OneMoreIsLatest(Retained(open, now, item.key.team), log + [item], item);
  }

  // ---- Which challenges are open, by what happened ----

  /** The open challenges but the one an answer named, if any. */
  ghost predicate TookOut(before: seq<Open>, after: seq<Open>, key: Key) {
    (after == before && forall item <- before :: item.key != key)
    || exists k :: 0 <= k < |before| && before[k].key == key && after == before[..k] + before[k + 1..]
  }

  /** A challenge opened, or reopened, or an answer that names one, each on a reading of the clock. */
  datatype Step = Puts(item: Open, at: int, anew: bool) | Names(key: Key, at: int)

  /**
  Whether what the i-th step put is open still: no answer named it since, and each challenge put since was another
  Team's, came before the deadline, and left it among the 63 newest that were open and stayed so.
  */
  ghost predicate IsOpen(steps: seq<Step>, i: nat)
    decreases |steps|, 0
  {
    && i < |steps| && steps[i].Puts?
    && (i < |steps| - 1 ==>
          && IsOpen(Before(steps), i)
          && match Last(steps)
             case Names(key, _) => key != steps[i].item.key
             case Puts(other, at, _) =>
               && other.key.team != steps[i].item.key.team && at < steps[i].item.deadline
               && |StayingAfter(Before(steps), i, at, other.key.team)| < 63)
  }

  /** Which challenges put after the i-th stay open when one of the Team is put at the time. */
  ghost function StayingAfter(steps: seq<Step>, i: nat, at: int, team: Team): set<nat>
    decreases |steps|, 1
  {
    set k: nat | i < k < |steps| && IsOpen(steps, k) && at < steps[k].item.deadline && steps[k].item.key.team != team
  }

  /** `places` are the steps that put what is open, in order. */
  ghost predicate PutAt(open: seq<Open>, places: seq<nat>, steps: seq<Step>) {
    && |open| == |places| && Rising(places)
    && forall k | 0 <= k < |places| :: places[k] < |steps| && steps[places[k]].Puts? && open[k] == steps[places[k]].item
  }

  /** What is open is what the steps leave open, in the order it was put. */
  ghost predicate OpenExactly(open: seq<Open>, steps: seq<Step>) {
    exists places :: PutAt(open, places, steps) && forall i: nat :: i in places <==> IsOpen(steps, i)
  }

  /** Of the places, those whose challenge stays. */
  ghost predicate AreStaying(kept: seq<nat>, places: seq<nat>, steps: seq<Step>, now: int, team: Team)
    requires forall place <- places :: place < |steps| && steps[place].Puts?
  {
    forall i :: i in kept <==> i in places && Stays(steps[i].item, now, team)
  }

  lemma PutAtPlaces(open: seq<Open>, places: seq<nat>, steps: seq<Step>)
    requires PutAt(open, places, steps)
    ensures forall place <- places :: place < |steps| && steps[place].Puts?
  {
  }

  lemma {:induction false} RetainedPlaces(open: seq<Open>, places: seq<nat>, steps: seq<Step>, now: int,
                                             team: Team) returns (kept: seq<nat>)
    requires PutAt(open, places, steps)
    ensures PutAt(Retained(open, now, team), kept, steps)
    ensures forall place <- places :: place < |steps| && steps[place].Puts?
    ensures AreStaying(kept, places, steps, now, team)
  {
    PutAtPlaces(open, places, steps);
    kept := [];
    if open != [] {
      PutAtLast(open, places, steps);
      kept := RetainedPlaces(open[..|open| - 1], Before(places), steps, now, team);
      OneMoreStays(kept, places, steps, now, team);
      if Stays(open[|open| - 1], now, team) {
        PutAtAppended(Retained(open[..|open| - 1], now, team), kept, steps, Last(places));
        kept := kept + [Last(places)];
      }
    }
  }

  lemma OneMoreStays(kept: seq<nat>, places: seq<nat>, steps: seq<Step>, now: int, team: Team)
    requires places != [] && forall place <- places :: place < |steps| && steps[place].Puts?
    requires forall place <- Before(places) :: place < |steps| && steps[place].Puts?
    requires Rising(places) && AreStaying(kept, Before(places), steps, now, team)
    ensures Last(places) in places && Last(places) < |steps| && steps[Last(places)].Puts?
    ensures forall place <- kept :: place < Last(places)
    ensures var all := if Stays(steps[Last(places)].item, now, team) then kept + [Last(places)] else kept;
      AreStaying(all, places, steps, now, team)
  {
    assert places == Before(places) + [Last(places)];
  }

  lemma PutAtAppended(open: seq<Open>, places: seq<nat>, steps: seq<Step>, place: nat)
    requires PutAt(open, places, steps) && place < |steps| && steps[place].Puts?
    requires forall other <- places :: other < place
    ensures PutAt(open + [steps[place].item], places + [place], steps)
  {
    assert forall k | 0 <= k < |places| :: places[k] in places;
  }

  /** A retained challenge is followed by as many as stay after it. */
  lemma StayingCount(kept: seq<nat>, k: nat, steps: seq<Step>, now: int, team: Team)
    requires Rising(kept) && k < |kept|
    requires forall i: nat :: i in kept <==>
               IsOpen(steps, i) && now < steps[i].item.deadline && steps[i].item.key.team != team
    ensures |StayingAfter(steps, kept[k], now, team)| == |kept| - 1 - k
  {
    var later := kept[k + 1..];
    RisingCount(later);
    forall i: nat ensures i in later <==> i in kept && i > kept[k] {
      if i in kept && i > kept[k] {
        var j :| 0 <= j < |kept| && kept[j] == i;
        assert j > k && later[j - k - 1] == i;
      }
    }
    assert StayingAfter(steps, kept[k], now, team) == Elements(later);
  }

  lemma EarlierStay(steps: seq<Step>, step: Step, kept: seq<nat>, k: nat, now: int, team: Team)
    requires step.Puts? && step.at == now && step.item.key.team == team && Rising(kept) && k < |kept| <= 64
    requires forall i: nat :: i in kept <==> IsOpen(steps, i) && Stays(steps[i].item, now, team)
    ensures IsOpen(steps + [step], kept[k]) <==> k > 0 || |kept| < 64
  {
    assert Before(steps + [step]) == steps && kept[k] in kept;
    StayingCount(kept, k, steps, now, team);
  }

  /** Of what was open before, what stays is open after, but at capacity the oldest. */
  lemma StoredOpen(steps: seq<Step>, step: Step, kept: seq<nat>, left: seq<nat>, i: nat)
    requires step.Puts? && Rising(kept) && |kept| <= 64
    requires forall k: nat :: k in kept <==> IsOpen(steps, k) && Stays(steps[k].item, step.at, step.item.key.team)
    requires forall k :: k in left <==> k in kept && (|kept| < 64 || k != kept[0])
    ensures IsOpen(steps + [step], i) <==> i in left || i == |steps|
  {
    assert Before(steps + [step]) == steps;
    if i in kept {
      var k :| 0 <= k < |kept| && kept[k] == i;
      EarlierStay(steps, step, kept, k, step.at, step.item.key.team);
    }
  }

  lemma KeptAreOpen(places: seq<nat>, kept: seq<nat>, steps: seq<Step>, now: int, team: Team)
    requires forall place <- places :: place < |steps| && steps[place].Puts?
    requires AreStaying(kept, places, steps, now, team) && forall i: nat :: i in places <==> IsOpen(steps, i)
    ensures forall k: nat :: k in kept <==> IsOpen(steps, k) && Stays(steps[k].item, now, team)
  {
  }

  lemma StoredExactly(open: seq<Open>, steps: seq<Step>, step: Step)
    requires OpenExactly(open, steps) && |open| <= 64 && step.Puts?
    ensures OpenExactly(Stored(open, step.at, step.item), steps + [step])
  {
    var places :| PutAt(open, places, steps) && forall i: nat :: i in places <==> IsOpen(steps, i);
    var next := StoredPlacesOf(open, places, steps, step);
  }

  /** Where what is open after storing was put. */
  lemma StoredPlacesOf(open: seq<Open>, places: seq<nat>, steps: seq<Step>, step: Step) returns (next: seq<nat>)
    requires PutAt(open, places, steps) && forall i: nat :: i in places <==> IsOpen(steps, i)
    requires |open| <= 64 && step.Puts?
    ensures PutAt(Stored(open, step.at, step.item), next, steps + [step])
    ensures forall i: nat :: i in next <==> IsOpen(steps + [step], i)
  {
    var kept := RetainedPlaces(open, places, steps, step.at, step.item.key.team);
    RetainedHold(open, step.at, step.item.key.team);
    var left := if |kept| >= MAX_OPEN_CHALLENGES then kept[1..] else kept;
    if |kept| >= MAX_OPEN_CHALLENGES {
      RisingWithout(kept, 0);
      assert kept[..0] + kept[1..] == kept[1..];
    }
    KeptAreOpen(places, kept, steps, step.at, step.item.key.team);
    StoredPlaces(open, steps, step, kept, left);
    next := left + [|steps|];
    forall i: nat ensures i in next <==> IsOpen(steps + [step], i) {
      StoredOpen(steps, step, kept, left, i);
    }
  }

  lemma StoredPlaces(open: seq<Open>, steps: seq<Step>, step: Step, kept: seq<nat>, left: seq<nat>)
    requires step.Puts? && PutAt(Retained(open, step.at, step.item.key.team), kept, steps)
    requires left == if |kept| >= MAX_OPEN_CHALLENGES then kept[1..] else kept
    ensures PutAt(Stored(open, step.at, step.item), left + [|steps|], steps + [step])
  {
    var retained := Retained(open, step.at, step.item.key.team);
    if |kept| >= MAX_OPEN_CHALLENGES {
      PutAtTail(retained, kept, steps);
      PutAtOneMore(retained[1..], left, steps, step);
    } else {
      PutAtOneMore(retained, left, steps, step);
    }
  }

  lemma PutAtTail(open: seq<Open>, places: seq<nat>, steps: seq<Step>)
    requires PutAt(open, places, steps) && open != []
    ensures PutAt(open[1..], places[1..], steps)
  {
  }

  lemma PutAtOneMore(open: seq<Open>, places: seq<nat>, steps: seq<Step>, step: Step)
    requires PutAt(open, places, steps) && step.Puts?
    ensures PutAt(open + [step.item], places + [|steps|], steps + [step])
  {
    var longer := places + [|steps|];
    forall k | 0 <= k < |longer| ensures longer[k] < |steps| + 1 && (steps + [step])[longer[k]].Puts?
      && (open + [step.item])[k] == (steps + [step])[longer[k]].item
    {
      assert k < |places| ==> longer[k] == places[k];
    }
  }

  lemma PutAtLast(open: seq<Open>, places: seq<nat>, steps: seq<Step>)
    requires PutAt(open, places, steps) && open != []
    ensures PutAt(open[..|open| - 1], Before(places), steps)
    ensures Last(places) < |steps| && steps[Last(places)].Puts? && steps[Last(places)].item == open[|open| - 1]
    ensures forall place <- Before(places) :: place < Last(places)
  {
  }

  lemma NamedOpen(steps: seq<Step>, key: Key, at: int, i: nat)
    ensures IsOpen(steps + [Names(key, at)], i) <==> IsOpen(steps, i) && steps[i].item.key != key
  {
    assert Before(steps + [Names(key, at)]) == steps;
  }

  lemma TakenExactly(open: seq<Open>, after: seq<Open>, steps: seq<Step>, key: Key, at: int)
    requires OpenExactly(open, steps) && TookOut(open, after, key)
    requires forall i, j | 0 <= i < j < |open| :: open[i].key.team != open[j].key.team
    ensures OpenExactly(after, steps + [Names(key, at)])
  {
    var places :| PutAt(open, places, steps) && forall i: nat :: i in places <==> IsOpen(steps, i);
    var next := places;
    if k :| 0 <= k < |open| && open[k].key == key {
      RisingWithout(places, k);
      next := places[..k] + places[k + 1..];
    }
    forall i: nat ensures i in next <==> IsOpen(steps + [Names(key, at)], i) {
      NamedOpen(steps, key, at, i);
      if i in places {
        PlaceOf(open, places, steps, key, i);
      }
    }
    TakenPlaces(open, after, places, next, steps, key, at);
  }

  /** Only the challenge of the key is at a place whose challenge has it. */
  lemma PlaceOf(open: seq<Open>, places: seq<nat>, steps: seq<Step>, key: Key, i: nat)
    requires PutAt(open, places, steps) && i in places
    requires forall i, j | 0 <= i < j < |open| :: open[i].key.team != open[j].key.team
    ensures i < |steps| && steps[i].Puts?
    ensures forall k | 0 <= k < |open| && open[k].key == key :: steps[i].item.key == key <==> i == places[k]
    ensures (forall item <- open :: item.key != key) ==> steps[i].item.key != key
  {
    var j :| 0 <= j < |places| && places[j] == i;
    assert open[j] in open && open[j] == steps[i].item;
  }

  lemma TakenPlaces(open: seq<Open>, after: seq<Open>, places: seq<nat>, next: seq<nat>, steps: seq<Step>,
                       key: Key, at: int)
    requires PutAt(open, places, steps) && TookOut(open, after, key) && Rising(next)
    requires forall i, j | 0 <= i < j < |open| :: open[i].key.team != open[j].key.team
    requires forall k | 0 <= k < |open| && open[k].key == key :: next == places[..k] + places[k + 1..]
    requires (forall item <- open :: item.key != key) ==> next == places
    ensures PutAt(after, next, steps + [Names(key, at)])
  {
  }

  // ---- Taking and restoring ----

  /** A challenge taken out for one answer, and its Team's latest opening then, while it was tracked. */
  datatype Taken = Taken(open: Open, generation: Option<nat>)

  /** The generation an answer carries is the number of the very opening it took. */
  ghost predicate Honest(taken: Taken, log: seq<Open>) {
    taken.generation.Some? ==>
      0 < taken.generation.value <= |log| && log[taken.generation.value - 1] == taken.open
  }

  /** What an answer carries stays true however many openings follow. */
  lemma HonestStays(taken: Taken, log: seq<Open>, more: seq<Open>)
    requires Honest(taken, log)
    ensures Honest(taken, log + more)
  {
  }

  lemma AllStayHonest(takes: seq<Taken>, log: seq<Open>, item: Open)
    requires forall taken <- takes :: Honest(taken, log)
    ensures forall taken <- takes :: Honest(taken, log + [item])
  {
    forall taken <- takes ensures Honest(taken, log + [item]) {
      HonestStays(taken, log, [item]);
    }
  }

  function Tracked(generations: seq<Generation>, team: Team): (number: Option<nat>)
  {
    if generations == [] then None
    else if generations[0].team == team then Some(generations[0].number)
    else Tracked(generations[1..], team)
  }

  lemma {:induction false} TrackedIsHeld(generations: seq<Generation>, team: Team, number: nat)
    requires OnePerTeam(generations)
    ensures Tracked(generations, team) == Some(number) <==> Generation(team, number) in generations
  {
    if generations != [] {
      assert generations == [generations[0]] + generations[1..];
      TrackedIsHeld(generations[1..], team, number);
    }
  }

  /** What is tracked are the newest generations of the whole history. */
  ghost predicate Represents(open: seq<Open>, generations: seq<Generation>, next: nat, log: seq<Open>) {
    && AllLatest(open, log) && next == |log|
    && generations == LastOf(Recent(log), MAX_TRACKED_GENERATIONS)
  }

  lemma TrackedIsLatest(generations: seq<Generation>, log: seq<Open>, team: Team)
    requires generations == LastOf(Recent(log), MAX_TRACKED_GENERATIONS)
    ensures OnePerTeam(generations)
    ensures Tracked(generations, team) ==
            if Latest(log, team) > 0 && |OpenedSince(log, Latest(log, team))| < MAX_TRACKED_GENERATIONS
            then Some(Latest(log, team)) else None
  {
    RecentIsOnePerTeam(log);
    var number := Latest(log, team);
    TrackedIsHeld(generations, team, number);
    if number > 0 {
      TrackedUntilManyOpened(log, team);
    }
    if Tracked(generations, team).Some? {
      var other := Tracked(generations, team).value;
      TrackedIsHeld(generations, team, other);
      RecentIsLatest(log, Generation(team, other));
      assert Generation(team, other) in Recent(log);
    }
  }

  lemma {:induction false} NewerAreNewest(generations: seq<Generation>, log: seq<Open>, item: Open)
    requires generations == LastOf(Recent(log), MAX_TRACKED_GENERATIONS)
    ensures Newer(generations, item.key.team, |log| + 1) == LastOf(Recent(log + [item]), MAX_TRACKED_GENERATIONS)
  {
    var recent := Recent(log);
    RecentIsOnePerTeam(log);
    var older := recent[..|recent| - |generations|];
    assert recent == older + generations;
    NewestStayNewest(older, generations, Generation(item.key.team, |log| + 1));
    assert (log + [item])[..|log|] == log;
  }

  lemma OpenedIsRepresented(
      open: seq<Open>, generations: seq<Generation>, next: nat, log: seq<Open>, now: int, item: Open)
    requires Represents(open, generations, next, log)
    ensures Represents(Stored(open, now, item), Newer(generations, item.key.team, next + 1), next + 1, log + [item])
  {
    NewerAreNewest(generations, log, item);
    OpenedAreLatest(open, log, now, item);
  }

  lemma RemovedAreLatest(open: seq<Open>, log: seq<Open>, k: nat)
    requires AllLatest(open, log) && k < |open|
    ensures AllLatest(open[..k] + open[k + 1..], log)
  {
  }

  /** The generations once the Team opened anew: its own last, and the oldest gone beyond capacity. */
  function Newer(generations: seq<Generation>, team: Team, number: nat): seq<Generation> {
    LastOf(Without(generations, TeamOf, team) + [Generation(team, number)], MAX_TRACKED_GENERATIONS)
  }

  /** Forgets the Team's earlier generation, and the oldest ones beyond capacity. */
  method Newest(generations: seq<Generation>, team: Team, number: nat) returns (kept: seq<Generation>)
    ensures kept == Newer(generations, team, number)
  {
    kept := Without(generations, TeamOf, team) + [Generation(team, number)];
    while |kept| > MAX_TRACKED_GENERATIONS
      invariant LastOf(kept, MAX_TRACKED_GENERATIONS) == Newer(generations, team, number)
    {
      kept := kept[1..];
    }
  }

  // ---- The whole life of what is kept ----

  datatype Life = Life(
    open: seq<Open>, generations: seq<Generation>, next: nat, log: seq<Open>, takes: seq<Taken>)

  /** The place of the first challenge an answer names. */
  function Place(open: seq<Open>, key: Key): (k: nat)
    ensures k <= |open| && (k < |open| ==> open[k].key == key)
    ensures forall i | 0 <= i < k :: open[i].key != key
  {
    if open == [] || open[0].key == key then 0 else 1 + Place(open[1..], key)
  }

  /** What a step leaves of everything kept, everything ever opened, and everything released to an answer. */
  function After(life: Life, step: Step): Life {
    match step
    case Puts(item, at, false) => life.(open := Stored(life.open, at, item))
    case Puts(item, at, true) =>
      Life(Stored(life.open, at, item), Newer(life.generations, item.key.team, life.next + 1), life.next + 1,
           life.log + [item], life.takes)
    case Names(key, at) =>
      var k := Place(life.open, key);
      if k == |life.open| then life
      else Released(life, k, at)
  }

  function Lived(steps: seq<Step>): Life {
    if steps == [] then Life([], [], 0, [], []) else After(Lived(Before(steps)), Last(steps))
  }

  /** Only a Team's latest opening is put back. */
  ghost predicate Lawful(steps: seq<Step>) {
    steps == []
    || (Lawful(Before(steps))
        && (Last(steps).Puts? && !Last(steps).anew ==> LatestOf(Last(steps).item, Lived(Before(steps)).log)))
  }

  ghost predicate IsWhole(life: Life, steps: seq<Step>) {
    && Represents(life.open, life.generations, life.next, life.log) && OpenExactly(life.open, steps)
    && forall taken <- life.takes :: Honest(taken, life.log)
  }

  lemma NothingIsWhole()
    ensures IsWhole(Lived([]), [])
  {
    assert PutAt([], [], []);
  }

  lemma OpenedIsWhole(life: Life, steps: seq<Step>, step: Step)
    requires IsWhole(life, steps) && step.Puts? && step.anew
    ensures IsWhole(After(life, step), steps + [step])
  {
    AllStayHonest(life.takes, life.log, step.item);
    OpenedIsRepresented(life.open, life.generations, life.next, life.log, step.at, step.item);
    StoredExactly(life.open, steps, step);
  }

  lemma ReopenedIsWhole(life: Life, steps: seq<Step>, step: Step)
    requires IsWhole(life, steps) && step.Puts? && !step.anew && LatestOf(step.item, life.log)
    ensures IsWhole(After(life, step), steps + [step])
  {
    StoredAreLatest(life.open, life.log, step.at, step.item);
    StoredExactly(life.open, steps, step);
  }

  lemma NamedIsWhole(life: Life, steps: seq<Step>, step: Step)
    requires IsWhole(life, steps) && step.Names?
    ensures IsWhole(After(life, step), steps + [step])
  {
    NamedIsTakenOut(life, step.key, step.at);
    TakenExactly(life.open, After(life, step).open, steps, step.key, step.at);
    NamedIsRepresented(life, step);
    NamedIsHonest(life, step);
  }

  lemma NamedIsRepresented(life: Life, step: Step)
    requires Represents(life.open, life.generations, life.next, life.log) && step.Names?
    ensures var next := After(life, step); Represents(next.open, next.generations, next.next, next.log)
  {
    var k := Place(life.open, step.key);
    if k < |life.open| {
      RemovedAreLatest(life.open, life.log, k);
    }
  }

  lemma NamedIsHonest(life: Life, step: Step)
    requires Represents(life.open, life.generations, life.next, life.log) && step.Names?
    requires forall taken <- life.takes :: Honest(taken, life.log)
    ensures forall taken <- After(life, step).takes :: Honest(taken, life.log)
  {
    var k := Place(life.open, step.key);
    if k < |life.open| {
      ReleasedIsHonest(life.open, life.generations, life.next, life.log, k);
    }
  }

  /** A challenge taken out was its Team's latest, and what is released of it is honest. */
  lemma ReleasedIsHonest(open: seq<Open>, generations: seq<Generation>, next: nat, log: seq<Open>, k: nat)
    requires Represents(open, generations, next, log) && k < |open|
    ensures var item := open[k];
      && LatestOf(item, log)
      && Honest(Taken(item, Tracked(generations, item.key.team)), log)
      && (Tracked(generations, item.key.team) == Some(Latest(log, item.key.team)) <==>
            |OpenedSince(log, Latest(log, item.key.team))| < 256)
  {
    TrackedIsLatest(generations, log, open[k].key.team);
  }

  lemma {:induction false} LivedIsWhole(steps: seq<Step>)
    requires Lawful(steps)
    ensures IsWhole(Lived(steps), steps)
  {
    if steps == [] {
      NothingIsWhole();
    } else {
      var rest, step := Before(steps), Last(steps);
      LivedIsWhole(rest);
      assert steps == rest + [step];
      if step.Names? {
        NamedIsWhole(Lived(rest), rest, step);
      } else if step.anew {
        OpenedIsWhole(Lived(rest), rest, step);
      } else {
        ReopenedIsWhole(Lived(rest), rest, step);
      }
    }
  }

  lemma LivesOn(steps: seq<Step>, step: Step)
    ensures Before(steps + [step]) == steps && Last(steps + [step]) == step
    ensures Lived(steps + [step]) == After(Lived(steps), step)
  {
  }

  /** A challenge is open exactly when the steps that happened leave it open. */
  lemma OpenIsExact(steps: seq<Step>)
    requires Lawful(steps)
    ensures forall item :: item in Lived(steps).open <==> exists i: nat :: IsOpen(steps, i) && steps[i].item == item
  {
    LivedIsWhole(steps);
    var open := Lived(steps).open;
    var places :| PutAt(open, places, steps) && forall i: nat :: i in places <==> IsOpen(steps, i);
    forall item | item in open ensures exists i: nat :: IsOpen(steps, i) && steps[i].item == item {
      var k :| 0 <= k < |open| && open[k] == item;
      assert places[k] in places;
    }
    forall i: nat | IsOpen(steps, i) ensures steps[i].item in open {
      var k :| 0 <= k < |places| && places[k] == i;
      assert open[k] == steps[i].item;
    }
  }

  /** What is tracked of a Team, and what an answer carries of its challenge, over the whole life. */
  lemma LivedTracks(steps: seq<Step>, team: Team)
    requires Lawful(steps)
    ensures var life := Lived(steps);
      Tracked(life.generations, team) ==
      if Latest(life.log, team) > 0 && |OpenedSince(life.log, Latest(life.log, team))| < 256
      then Some(Latest(life.log, team)) else None
  {
    LivedIsWhole(steps);
    TrackedIsLatest(Lived(steps).generations, Lived(steps).log, team);
  }

  lemma LivedIsHonest(steps: seq<Step>, taken: Taken)
    requires Lawful(steps) && taken in Lived(steps).takes
    ensures Honest(taken, Lived(steps).log)
  {
    LivedIsWhole(steps);
  }

  lemma LivedIsLatest(steps: seq<Step>, k: nat)
    requires Lawful(steps) && k < |Lived(steps).open|
    ensures LatestOf(Lived(steps).open[k], Lived(steps).log)
    ensures Honest(Taken(Lived(steps).open[k], Tracked(Lived(steps).generations, Lived(steps).open[k].key.team)),
                   Lived(steps).log)
    ensures forall i | 0 <= i < |Lived(steps).open| && i != k :: Lived(steps).open[i].key != Lived(steps).open[k].key
  {
    LivedIsWhole(steps);
    var life := Lived(steps);
    ReleasedIsHonest(life.open, life.generations, life.next, life.log, k);
  }

  lemma FirstOfKey(open: seq<Open>, key: Key, k: nat)
    requires k <= |open| && (k < |open| ==> open[k].key == key) && forall i | 0 <= i < k :: open[i].key != key
    ensures Place(open, key) == k
  {
  }

  /** What an answer that names a key does: the one challenge of the key leaves, and is released before its deadline. */
  lemma NamedLife(steps: seq<Step>, key: Key, at: int, k: nat)
    requires Lawful(steps) && k == Place(Lived(steps).open, key)
    ensures var life, longer := Lived(steps), steps + [Names(key, at)];
      && Lawful(longer) && TookOut(life.open, Lived(longer).open, key)
      && Lived(longer) ==
         if k == |life.open| then life
         else Released(life, k, at)
  {
    LivesOn(steps, Names(key, at));
    NamedIsTakenOut(Lived(steps), key, at);
  }

  lemma NamedIsTakenOut(life: Life, key: Key, at: int)
    ensures TookOut(life.open, After(life, Names(key, at)).open, key)
  {
    var k := Place(life.open, key);
    if k == |life.open| {
      assert forall item <- life.open :: item.key != key;
    }
  }

  function Released(life: Life, k: nat, at: int): Life
    requires k < |life.open|
  {
    var taken := Taken(life.open[k], Tracked(life.generations, life.open[k].key.team));
    life.(open := life.open[..k] + life.open[k + 1..],
          takes := if taken.open.deadline > at then life.takes + [taken] else life.takes)
  }

  /** What an opening does. */
  lemma OpenedLife(steps: seq<Step>, item: Open, at: int, tracked: seq<Generation>)
    requires Lawful(steps) && tracked == Newer(Lived(steps).generations, item.key.team, Lived(steps).next + 1)
    ensures var life, longer := Lived(steps), steps + [Puts(item, at, true)];
      && Lawful(longer)
      && Lived(longer) == Life(Stored(life.open, at, item), tracked, life.next + 1, life.log + [item], life.takes)
  {
    LivesOn(steps, Puts(item, at, true));
  }

  /** An answer reopens its challenge exactly when it carries the Team's latest opening, and that is tracked still. */
  lemma ReopensExactly(steps: seq<Step>, taken: Taken)
    requires Lawful(steps) && taken in Lived(steps).takes
    ensures var life, team := Lived(steps), taken.open.key.team;
      var carries := taken.generation.Some? && Tracked(life.generations, team) == taken.generation;
      && (carries <==>
            taken.generation == Some(Latest(life.log, team)) && |OpenedSince(life.log, Latest(life.log, team))| < 256)
      && (carries ==> LatestOf(taken.open, life.log))
  {
    LivedTracks(steps, taken.open.key.team);
    LivedIsHonest(steps, taken);
  }

  /** What a reopening does. */
  lemma ReopenedLife(steps: seq<Step>, item: Open, at: int)
    requires Lawful(steps) && LatestOf(item, Lived(steps).log)
    ensures var life, longer := Lived(steps), steps + [Puts(item, at, false)];
      Lawful(longer) && Lived(longer) == life.(open := Stored(life.open, at, item))
  {
    LivesOn(steps, Puts(item, at, false));
  }

  /** Looks for the challenge an answer names. */
  method Found(open: seq<Open>, key: Key) returns (k: nat)
    ensures k == Place(open, key)
  {
    k := 0;
    while k < |open| && open[k].key != key
      invariant k <= |open| && forall i | 0 <= i < k :: open[i].key != key
    {
      k := k + 1;
    }
    FirstOfKey(open, key, k);
  }

  function Kept(life: Life): (seq<Open>, seq<Generation>, nat) {
    (life.open, life.generations, life.next)
  }

  class Challenges {
    var open: seq<Open>
    var generations: seq<Generation>
    var next: nat
    // Every challenge put and every answer that named one.
    ghost var steps: seq<Step>

    /** What is kept is what the steps that happened made of it. */
    ghost predicate Valid()
      reads this
    {
      Lawful(steps) && Kept(Lived(steps)) == (open, generations, next)
    }

    /** Every opening of every Team. */
    ghost function Log(): seq<Open>
      reads this
    {
      Lived(steps).log
    }

    /** Every challenge released to an answer. */
    ghost function Takes(): seq<Taken>
      reads this
    {
      Lived(steps).takes
    }

    constructor ()
      ensures Valid() && Log() == [] && open == [] && Takes() == [] && steps == []
    {
      open, generations, next, steps := [], [], 0, [];
    }

    /** Keeps a challenge its Team just opened, in place of the Team's earlier one. */
    method Remember(item: Open, now: int)
      requires Valid()
      modifies this
      ensures Valid() && steps == old(steps) + [Puts(item, now, true)]
      ensures Log() == old(Log()) + [item] && Takes() == old(Takes()) && open == Stored(old(open), now, item)
    {
      var tracked := Newest(generations, item.key.team, next + 1);
      OpenedLife(steps, item, now, tracked);
      open, generations, next, steps :=
        Stored(open, now, item), tracked, next + 1, steps + [Puts(item, now, true)];
    }

    /**
    Puts a challenge back, with its own deadline and request, exactly when its opening is still the Team's latest and
    fewer than 256 Teams were opened since; otherwise the rejected answer has closed it.
    */
    method Restore(taken: Taken, now: int) returns (reopened: bool)
      requires Valid() && taken in Takes()
      modifies this
      ensures Valid() && Log() == old(Log()) && Takes() == old(Takes())
      ensures reopened <==> var latest := Latest(Log(), taken.open.key.team);
        taken.generation == Some(latest) && |OpenedSince(Log(), latest)| < 256
      ensures open == if reopened then Stored(old(open), now, taken.open) else old(open)
      ensures steps == if reopened then old(steps) + [Puts(taken.open, now, false)] else old(steps)
    {
      ReopensExactly(steps, taken);
      reopened := taken.generation.Some? && Tracked(generations, taken.open.key.team) == taken.generation;
      if reopened {
        ReopenedLife(steps, taken.open, now);
        open, steps := Stored(open, now, taken.open), steps + [Puts(taken.open, now, false)];
      }
    }

    /** Takes the challenge an answer names out, expired or not, and releases one that has not expired. */
    method Take(key: Key, now: int) returns (taken: Option<Taken>)
      requires Valid()
      modifies this
      ensures Valid() && steps == old(steps) + [Names(key, now)]
      ensures Log() == old(Log()) && TookOut(old(open), open, key)
      ensures Takes() == if taken.Some? then old(Takes()) + [taken.value] else old(Takes())
      ensures taken.Some? <==> exists item <- old(open) :: item.key == key && item.deadline > now
      ensures taken.Some? ==>
                var item, latest := taken.value.open, Latest(Log(), key.team);
                && item in old(open) && item.key == key && LatestOf(item, Log()) && Honest(taken.value, Log())
                && (taken.value.generation == Some(latest) <==> |OpenedSince(Log(), latest)| < 256)
    {
      var k := Found(open, key);
      NamedLife(steps, key, now, k);
      if k == |open| {
        steps := steps + [Names(key, now)];
        return None;
      }
      LivedIsLatest(steps, k);
      LivedTracks(steps, key.team);
      var item, generation := open[k], Tracked(generations, key.team);
      open, steps := open[..k] + open[k + 1..], steps + [Names(key, now)];
      taken := if item.deadline <= now then None else Some(Taken(item, generation));
    }
  }

  // ---- Openings in flight ----

  /** Each Team with openings in flight is counted, with as many as it has. */
  ghost predicate Counts(openings: map<Team, nat>, inFlight: multiset<Team>) {
    && (forall team :: team in openings <==> team in inFlight)
    && (forall team <- openings :: openings[team] == inFlight[team])
  }

  function OneMore(openings: map<Team, nat>, team: Team): map<Team, nat> {
    openings[team := (if team in openings then openings[team] else 0) + 1]
  }

  function OneFewer(openings: map<Team, nat>, team: Team): map<Team, nat> {
    if team !in openings then openings
    else if openings[team] <= 1 then openings - {team} else openings[team := openings[team] - 1]
  }

  lemma OneMoreCounts(openings: map<Team, nat>, inFlight: multiset<Team>, team: Team)
    requires Counts(openings, inFlight)
    ensures Counts(OneMore(openings, team), inFlight + multiset{team})
    ensures |OneMore(openings, team)| == |openings| + if team in openings then 0 else 1
  {
    assert OneMore(openings, team).Keys == openings.Keys + {team};
    assert team in openings ==> openings.Keys + {team} == openings.Keys;
  }

  lemma OneFewerCounts(openings: map<Team, nat>, inFlight: multiset<Team>, team: Team)
    requires Counts(openings, inFlight)
    ensures Counts(OneFewer(openings, team), inFlight - multiset{team})
    ensures |OneFewer(openings, team)| <= |openings|
  {
    if team in openings && openings[team] <= 1 {
      assert (openings - {team}).Keys == openings.Keys - {team};
    } else if team in openings {
      assert OneFewer(openings, team).Keys == openings.Keys;
    }
  }

  /** How many openings of each Team hold or await its lock. */
  class Openings {
    var openings: map<Team, nat>
    // Every opening admitted and not yet ended.
    ghost var inFlight: multiset<Team>

    ghost predicate Valid()
      reads this
    {
      |openings| <= MAX_OPENING_TEAMS && Counts(openings, inFlight)
    }

    constructor ()
      ensures Valid() && inFlight == multiset{}
    {
      openings, inFlight := map[], multiset{};
    }

    /** Admits an opening unless it would make too many Teams have one in flight. */
    method Opening(team: Team) returns (admitted: bool)
      requires Valid()
      modifies this
      ensures Valid() && inFlight == if admitted then old(inFlight) + multiset{team} else old(inFlight)
      ensures admitted <==> team in old(inFlight) || |old(openings)| < 64
    {
      if team !in openings && |openings| >= MAX_OPENING_TEAMS {
        return false;
      }
      OneMoreCounts(openings, inFlight, team);
      openings, inFlight := OneMore(openings, team), inFlight + multiset{team};
      return true;
    }

    /** Ends one opening of the Team; its last one forgets the Team. */
    method Opened(team: Team)
      requires Valid()
      modifies this
      ensures Valid() && inFlight == old(inFlight) - multiset{team}
    {
      OneFewerCounts(openings, inFlight, team);
      openings, inFlight := OneFewer(openings, team), inFlight - multiset{team};
    }
  }
}
