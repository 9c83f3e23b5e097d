/**
The lifecycle steps as Admin takes them, on the saved order's file and with Team's answers: each is a step of the runs
the order's guarantees are about.
*/
module OrderLife {
  import opened Disks
  import opened Lists
  import opened OrderFile
  import opened OrderRuns
  import opened TeamOrder
  import opened Wrappers

  /** The run goes on with one more quiet step. */
  lemma GoesOn(states: seq<State>, steps: seq<Step>, step: Step, next: State)
    requires IsRun(states, steps) && IsQuiet(states, steps)
    requires Next(states[|steps|], step, next) && Quiet(states[|steps|], step)
    ensures IsRun(states + [next], steps + [step]) && IsQuiet(states + [next], steps + [step])
  {
  }

  /** The listing shows this Team first. */
  ghost predicate Leads(team: Team, teams: seq<Team>, saved: Saved) {
    var listed := Arrange(teams, SavedIds(saved));
    listed != [] && listed[0] == team
  }

  /** A Team about to be created anew will lead every listing of what the file may hold. */
  lemma CreatedWillLead(states: seq<State>, steps: seq<Step>, s: State)
    requires IsRun(states, steps) && IsQuiet(states, steps) && s == states[|steps|]
    requires s.creating.Some? && !Names(s.teams, s.creating.value)
    ensures var team := Team(s.creating.value, s.lives);
      forall saved <- s.disk.possible :: Leads(team, [team] + s.teams, saved)
  {
    var next := Created(s, s.creating.value, true);
    GoesOn(states, steps, Create(true), next);
    var longer, more := states + [next], steps + [Create(true)];
    forall saved <- s.disk.possible ensures Leads(next.teams[0], next.teams, saved) {
      NewTeamInheritsNoPosition(longer, more, |steps|, saved);
    }
  }

  class Admin {
    const file: File
    var teams: seq<Team>
    var lives: nat
    var creating: Option<Id>
    // Every state and step since the Space began.
    ghost var states: seq<State>
    ghost var steps: seq<Step>

    function Now(): State
      reads this, file
    {
      State(file.disk, teams, lives, creating)
    }

    ghost predicate Valid()
      reads this, file
    {
      IsRun(states, steps) && IsQuiet(states, steps) && Now() == states[|steps|]
    }

    constructor ()
      ensures Valid() && fresh(file)
    {
      file := new File();
      teams, lives, creating := [], 0, None;
      states, steps := [State(Lasting(Missing), [], 0, None)], [];
    }

    ghost method Record(step: Step)
      requires IsRun(states, steps) && IsQuiet(states, steps)
      requires Next(states[|steps|], step, Now()) && Quiet(states[|steps|], step)
      modifies this`states, this`steps
      ensures Valid() && steps == old(steps) + [step]
    {
      GoesOn(states, steps, step, Now());
      states, steps := states + [Now()], steps + [step];
    }

    /** Takes the lock for a creation and releases the id, with the inventory Team shows now, if it answers. */
    method Release(id: Id, answers: bool, io: Io) returns (refusal: Option<Refusal>)
      requires Valid() && creating.None?
      modifies this, file
      ensures Valid() && steps == old(steps) + [Step.Release(id, refusal.None?)]
      ensures teams == old(teams) && creating == if refusal.None? then Some(id) else None
      ensures answers && io == Io(true, true, true, Durable) ==> refusal.None?
    {
      RunKeepsInv(states, steps, |steps|);
      refusal := file.ReleaseForCreate(id, if answers then Some(teams) else None, io);
      creating := if refusal.None? then Some(id) else None;
      Record(Step.Release(id, refusal.None?));
    }

    /** Team is asked to create the released id; a Team created anew leads every listing of what the file may hold. */
    method Create(reached: bool)
      requires Valid() && creating.Some?
      modifies this
      ensures Valid() && steps == old(steps) + [Step.Create(reached)] && creating.None?
      ensures reached && !Names(old(teams), old(creating).value) ==>
        && teams == [Team(old(creating).value, old(lives))] + old(teams)
        && forall saved <- file.disk.possible :: Leads(teams[0], teams, saved)
    {
      var id := creating.value;
      if !Names(teams, id) {
        CreatedWillLead(states, steps, Now());
      }
      if reached && !Names(teams, id) {
        teams, lives := [Team(id, lives)] + teams, lives + 1;
      }
      creating := None;
      Record(Step.Create(reached));
    }

    /** Team is asked to delete an id; after a success its position is forgotten. */
    method Delete(id: Id, reached: bool, succeeds: bool, io: Io) returns (clean: bool)
      requires Valid() && creating.None?
      modifies this, file
      ensures Valid() && steps == old(steps) + [Step.Delete(id, reached, succeeds)]
      ensures clean && succeeds ==> Releases(file.disk, id)
      ensures !succeeds || io == Io(true, true, true, Durable) ==> clean
    {
      RunKeepsInv(states, steps, |steps|);
      if reached {
        teams := Without(teams, IdOf, id);
      }
      clean := true;
      if succeeds {
        clean := file.Forget(id, io);
      }
      Record(Step.Delete(id, reached, succeeds));
    }

    /** Team is asked to empty the Space; after a success the saved order goes too. */
    method Reset(reached: bool, succeeds: bool, io: Io, temporariesUnlink: bool) returns (clean: bool)
      requires Valid() && creating.None?
      modifies this, file
      ensures Valid() && steps == old(steps) + [Step.Reset(reached)]
      ensures clean && succeeds ==> file.disk == Lasting(Missing)
      ensures !succeeds || (io.removable && temporariesUnlink && io.synced) ==> clean
    {
      RunKeepsInv(states, steps, |steps|);
      if reached {
        teams := [];
      }
      clean := true;
      if succeeds {
        clean := file.Clear(io, temporariesUnlink);
      }
      Record(Step.Reset(reached));
    }

    /** A reorder of what Team shows now, if it answers. */
    method Reorder(ids: seq<Id>, answers: bool, io: Io) returns (listed: Result<seq<Team>, Refusal>)
      requires Valid() && creating.None?
      modifies this, file
      ensures Valid() && steps == old(steps) + [Step.Reorder(ids)] && teams == old(teams)
      ensures listed.Success? <==> answers && multiset(ids) == multiset(Ids(teams)) && io.write.Durable?
      ensures listed.Success? ==> Ids(listed.value) == ids && multiset(listed.value) == multiset(teams)
    {
      RunKeepsInv(states, steps, |steps|);
      listed := file.Reorder(ids, if answers then Some(teams) else None, io);
      Record(Step.Reorder(ids));
    }
  }
}
