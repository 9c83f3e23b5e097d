/**
Every run of Team creation, deletion, reorder and Space reset under the order lock, with lost answers and crashes
between any two steps: a Team never takes the saved position of an earlier Team of its id.
*/
module OrderRuns {
  import opened Disks
  import opened Lists
  import opened OrderFile
  import opened TeamOrder
  import opened Wrappers

  /** The file, Team's inventory newest first, the next new Team's life, and the id whose creation holds the lock. */
  datatype State = State(disk: Disk<Saved>, teams: seq<Team>, lives: nat, creating: Option<Id>)

  datatype Step =
    | Release(id: Id, granted: bool)
    | Create(reached: bool)
    | Delete(id: Id, reached: bool, forgotten: bool)
    | Reset(reached: bool)
    | Reorder(ids: seq<Id>)
    | Vanish(id: Id)
    | Damage
    | Crash

  ghost predicate Initial(s: State) {
    s == State(Lasting(Missing), [], 0, None)
  }

  /** Where creation leaves the inventory: a Team that holds the id stays, and a lost request changes nothing. */
  function Created(s: State, id: Id, reached: bool): State {
    if !reached || Names(s.teams, id) then s.(creating := None)
    else s.(teams := [Team(id, s.lives)] + s.teams, lives := s.lives + 1, creating := None)
  }

  ghost predicate Next(s: State, step: Step, s': State) {
    match step
    case Release(id, granted) =>
      // ReleaseForCreate with the inventory read now
      && s.creating.None? && Loses(s.disk, s'.disk, id)
      && (granted ==> Releases(s'.disk, id) || Names(s.teams, id))
      && s' == s.(disk := s'.disk, creating := if granted then Some(id) else None)
    case Create(reached) =>
      s.creating.Some? && s' == Created(s, s.creating.value, reached)
    case Delete(id, reached, forgotten) =>
      // Team's deletion, its answer perhaps lost, and Forget after a success
      && s.creating.None? && (if forgotten then Loses(s.disk, s'.disk, id) else s'.disk == s.disk)
      && s' == s.(disk := s'.disk, teams := if reached then Without(s.teams, IdOf, id) else s.teams)
    case Reset(reached) =>
      && s.creating.None? && Kept(s'.disk)
      && (forall saved <- s'.disk.possible :: saved in s.disk.possible || saved == Missing)
      && s' == s.(disk := s'.disk, teams := if reached then [] else s.teams)
    case Reorder(ids) =>
      && s.creating.None? && Kept(s'.disk)
      && (forall saved <- s'.disk.possible :: saved in s.disk.possible || saved == Order(Placed(s.teams, ids)))
      && s' == s.(disk := s'.disk)
    case Vanish(id) =>
      // Team loses a Team without Admin
      s' == s.(teams := Without(s.teams, IdOf, id))
    case Damage =>
      s' == s.(disk := Lasting(Invalid))
    case Crash =>
      && s'.disk.file in s.disk.possible
      && s' == s.(disk := Lasting(s'.disk.file), creating := None)
  }

  /** Team does not lose the very Team whose id Admin is about to create. */
  predicate Quiet(s: State, step: Step) {
    step.Vanish? ==> s.creating != Some(step.id)
  }

  ghost predicate IsRun(states: seq<State>, steps: seq<Step>) {
    && |states| == |steps| + 1 && Initial(states[0])
    && forall i | 0 <= i < |steps| :: Next(states[i], steps[i], states[i + 1])
  }

  ghost predicate IsQuiet(states: seq<State>, steps: seq<Step>)
    requires |states| == |steps| + 1
  {
    forall i | 0 <= i < |steps| :: Quiet(states[i], steps[i])
  }

  /** Every position this content gives a present Team was saved for that very Team. */
  ghost predicate OwnPositions(saved: Saved, teams: seq<Team>, lives: nat) {
    saved.Order? ==>
      && (forall place <- saved.teams :: place.life < lives)
      && (forall place <- saved.teams, team <- teams :: place.id == team.id ==> place == team)
  }

  ghost predicate Inv(s: State) {
    && Kept(s.disk) && Unique(s.teams) && (forall team <- s.teams :: team.life < s.lives)
    && (forall saved <- s.disk.possible :: OwnPositions(saved, s.teams, s.lives))
    && (s.creating.Some? && !Names(s.teams, s.creating.value) ==>
          forall saved <- s.disk.possible :: !Holds(saved, s.creating.value))
  }

  lemma {:induction false} PlacedAreTeams(teams: seq<Team>, ids: seq<Id>)
    requires Unique(teams)
    ensures forall place <- Placed(teams, ids) :: place in teams
  {
    if ids != [] {
      FoundIsNamed(teams, ids[0]);
      PlacedAreTeams(teams, ids[1..]);
    }
  }

  lemma StepKeepsInv(s: State, step: Step, s': State)
    requires Inv(s) && Next(s, step, s') && Quiet(s, step)
    ensures Inv(s')
  {
    match step
    case Release(id, _) =>
      LosingKeepsPositions(s, s'.disk, id);
    case Delete(id, _, forgotten) =>
      WithoutKeepsOthers(s.teams, id);
      WithoutStaysDistinct(s.teams, IdOf, id);
      if forgotten {
        LosingKeepsPositions(s, s'.disk, id);
      }
    case Vanish(id) =>
      WithoutKeepsOthers(s.teams, id);
      WithoutStaysDistinct(s.teams, IdOf, id);
    case Reorder(ids) =>
      PlacedAreTeams(s.teams, ids);
    case Create(reached) =>
    case Reset(reached) =>
    case Damage =>
    case Crash =>
  }

  lemma LosingKeepsPositions(s: State, disk: Disk<Saved>, id: Id)
    requires Inv(s) && Loses(s.disk, disk, id)
    ensures forall saved <- disk.possible :: OwnPositions(saved, s.teams, s.lives)
  {
    if s.disk.file.Order? {
      WithoutKeepsOthers(s.disk.file.teams, id);
      assert OwnPositions(s.disk.file, s.teams, s.lives);
    }
  }

  lemma {:induction false} RunKeepsInv(states: seq<State>, steps: seq<Step>, i: nat)
    requires IsRun(states, steps) && IsQuiet(states, steps) && i < |states|
    ensures Inv(states[i])
  {
    if i > 0 {
      RunKeepsInv(states, steps, i - 1);
      assert Next(states[i - 1], steps[i - 1], states[i]) && Quiet(states[i - 1], steps[i - 1]);
      StepKeepsInv(states[i - 1], steps[i - 1], states[i]);
    }
  }

  function SavedIds(saved: Saved): seq<Id> {
    if saved.Order? then Ids(saved.teams) else []
  }

  /**
  When Admin creates a Team anew, no content the file shows or may show after a crash places it: it leads the list, even
  when a Team of its id was listed and ordered before.
  */
  lemma NewTeamInheritsNoPosition(states: seq<State>, steps: seq<Step>, i: nat, saved: Saved)
    requires IsRun(states, steps) && IsQuiet(states, steps) && i < |steps|
    requires steps[i].Create? && states[i + 1].lives > states[i].lives
    requires saved in states[i + 1].disk.possible
    ensures var team := Team(states[i].creating.value, states[i].lives);
      && team in states[i + 1].teams && !Holds(saved, team.id)
      && Arrange(states[i + 1].teams, SavedIds(saved))[0] == team
  {
    RunKeepsInv(states, steps, i);
    assert Next(states[i], steps[i], states[i + 1]);
    var team := Team(states[i].creating.value, states[i].lives);
    assert !Holds(saved, team.id);
    UnnamedLeads(states[i + 1].teams, SavedIds(saved));
  }

  /** In every reachable state, now or after a crash, each position a present Team has was saved for that very Team. */
  lemma EveryPositionIsTheTeamsOwn(states: seq<State>, steps: seq<Step>, i: nat, saved: Saved, place: Team, team: Team)
    requires IsRun(states, steps) && IsQuiet(states, steps) && i < |states|
    requires saved in states[i].disk.possible && saved.Order? && place in saved.teams
    requires team in states[i].teams && place.id == team.id
    ensures place == team
  {
    RunKeepsInv(states, steps, i);
    assert OwnPositions(saved, states[i].teams, states[i].lives);
  }

  predicate Inherits(s: State) {
    && s.disk.file.Order?
    && exists place <- s.disk.file.teams, team <- s.teams :: place.id == team.id && place != team
  }

  /** Were Team to lose a Team between the release that saw it and the creation, the new one would take its position. */
  lemma LosingTheTeamMeanwhileInherits() returns (states: seq<State>, steps: seq<Step>)
    ensures IsRun(states, steps) && !IsQuiet(states, steps)
    ensures Inherits(states[|steps|])
  {
    var id: Id := "a";
    var old0, new1 := Team(id, 0), Team(id, 1);
    var saved := Lasting(Order([old0]));
    states, steps := PlacesOne(id);
    var s3 := State(saved, [old0], 1, None);
    var s4 := s3.(creating := Some(id));
    assert old0 in s3.teams && Names(s3.teams, id);
    states, steps := Extended(states, steps, Release(id, true), s4);
    var s5 := s4.(teams := []);
    assert Without([old0], IdOf, id) == [];
    states, steps := Extended(states, steps, Vanish(id), s5);
    assert states[4] == s4 && !Quiet(states[4], steps[4]);
    var s6 := State(saved, [new1], 2, None);
    assert [new1] + [] == [new1];
    states, steps := Extended(states, steps, Create(true), s6);
    assert states[4] == s4 && !Quiet(states[4], steps[4]);
    assert old0 in saved.file.teams && new1 in s6.teams;
  }

  lemma Extended(states: seq<State>, steps: seq<Step>, step: Step, next: State)
    returns (longer: seq<State>, more: seq<Step>)
    requires IsRun(states, steps) && Next(states[|steps|], step, next)
    ensures longer == states + [next] && more == steps + [step] && IsRun(longer, more)
  {
    longer, more := states + [next], steps + [step];
  }

  /** A Team is created and its position saved. */
  lemma PlacesOne(id: Id) returns (states: seq<State>, steps: seq<Step>)
    ensures IsRun(states, steps) && |steps| == 3
    ensures states[3] == State(Lasting(Order([Team(id, 0)])), [Team(id, 0)], 1, None)
  {
    var old0 := Team(id, 0);
    var s0 := State(Lasting(Missing), [], 0, None);
    states, steps := [s0], [];
    states, steps := Extended(states, steps, Release(id, true), s0.(creating := Some(id)));
    var s2 := State(Lasting(Missing), [old0], 1, None);
    assert [old0] + [] == [old0];
    states, steps := Extended(states, steps, Create(true), s2);
    assert Placed([old0], [id]) == [old0];
    states, steps := Extended(states, steps, Reorder([id]), s2.(disk := Lasting(Order([old0]))));
  }
}
