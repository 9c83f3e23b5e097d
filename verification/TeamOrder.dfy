/** How a saved arrangement of ids orders the Teams that exist. */
module TeamOrder {
  import opened Lists
  import opened Wrappers

  type Id = string

  /** A Team; `life` tells apart Teams that reuse one id, and no decision of Admin's reads it. */
  datatype Team = Team(id: Id, life: nat)

  // ---- Arranging ----

  function IdOf(team: Team): Id {
    team.id
  }

  ghost predicate Unique(teams: seq<Team>) {
    DistinctBy(teams, IdOf)
  }

  predicate Names(teams: seq<Team>, id: Id) {
    exists team <- teams :: team.id == id
  }

  function Ids(teams: seq<Team>): (ids: seq<Id>)
    ensures |ids| == |teams| && forall i | 0 <= i < |ids| :: ids[i] == teams[i].id
  {
    seq(|teams|, i requires 0 <= i < |teams| => teams[i].id)
  }

  function Head(teams: seq<Team>, saved: seq<Id>): seq<Team>
    requires teams != []
  {
    if teams[0].id in saved then [] else [teams[0]]
  }

  function Unsaved(teams: seq<Team>, saved: seq<Id>): seq<Team> {
    if teams == [] then []
    else Head(teams, saved) + Unsaved(teams[1..], saved)
  }

  /** The first Team of an id, in a list of at most one. */
  function Found(teams: seq<Team>, id: Id): seq<Team> {
    if teams == [] then [] else if teams[0].id == id then [teams[0]] else Found(teams[1..], id)
  }

  function Placed(teams: seq<Team>, saved: seq<Id>): seq<Team> {
    if saved == [] then [] else Found(teams, saved[0]) + Placed(teams, saved[1..])
  }

  /** The listing: what nobody placed, as the inventory has it, before what the Supervisor placed. */
  function Arrange(teams: seq<Team>, saved: seq<Id>): seq<Team> {
    Unsaved(teams, saved) + Placed(teams, saved)
  }

  lemma {:induction false} FoundIsNamed(teams: seq<Team>, id: Id)
    requires Unique(teams)
    ensures |Found(teams, id)| <= 1 && (Found(teams, id) == [] <==> !Names(teams, id))
    ensures forall team <- Found(teams, id) :: team in teams && team.id == id
  {
    if teams != [] {
      assert forall team <- teams :: team == teams[0] || team in teams[1..];
      FoundIsNamed(teams[1..], id);
    }
  }

  lemma {:induction false} UnsavedDropsOne(teams: seq<Team>, saved: seq<Id>, id: Id)
    requires Unique(teams) && id !in saved
    ensures multiset(Unsaved(teams, [id] + saved)) + multiset(Found(teams, id)) == multiset(Unsaved(teams, saved))
  {
    if teams != [] {
      var rest := teams[1..];
      assert Unsaved(teams, saved) == Head(teams, saved) + Unsaved(rest, saved);
      assert Unsaved(teams, [id] + saved) == Head(teams, [id] + saved) + Unsaved(rest, [id] + saved);
      if teams[0].id == id {
        UnsavedKeepsOthers(rest, saved, id);
      } else {
        UnsavedDropsOne(rest, saved, id);
        assert Head(teams, [id] + saved) == Head(teams, saved) && Found(teams, id) == Found(rest, id);
      }
    }
  }

  lemma {:induction false} UnsavedKeepsOthers(teams: seq<Team>, saved: seq<Id>, id: Id)
    requires forall team <- teams :: team.id != id
    ensures Unsaved(teams, [id] + saved) == Unsaved(teams, saved)
  {
    if teams != [] {
      UnsavedKeepsOthers(teams[1..], saved, id);
    }
  }

  lemma {:induction false} NothingSaved(teams: seq<Team>)
    ensures Unsaved(teams, []) == teams
  {
    if teams != [] {
      NothingSaved(teams[1..]);
    }
  }

  /** Placing one more Team takes it from the unsaved ones. */
  lemma ArrangeOneMore(teams: seq<Team>, saved: seq<Id>)
    requires Unique(teams) && saved != [] && saved[0] !in saved[1..]
    ensures multiset(Arrange(teams, saved)) == multiset(Arrange(teams, saved[1..]))
  {
    UnsavedDropsOne(teams, saved[1..], saved[0]);
    assert saved == [saved[0]] + saved[1..];
  }

  /** The list shows each Team of the inventory exactly once, whatever was saved. */
  lemma {:induction false} ArrangeIsPermutation(teams: seq<Team>, saved: seq<Id>)
    requires Unique(teams) && Distinct(saved)
    ensures multiset(Arrange(teams, saved)) == multiset(teams)
  {
    if saved == [] {
      NothingSaved(teams);
      assert Arrange(teams, saved) == teams;
    } else {
      ArrangeIsPermutation(teams, saved[1..]);
      ArrangeOneMore(teams, saved);
    }
  }

  /** An unsaved Team stands behind exactly the unsaved Teams the inventory has before it. */
  lemma {:induction false} UnsavedStandInOrder(teams: seq<Team>, saved: seq<Id>, i: nat)
    requires i < |teams| && teams[i].id !in saved
    ensures |Unsaved(teams[..i], saved)| < |Unsaved(teams, saved)|
    ensures Arrange(teams, saved)[|Unsaved(teams[..i], saved)|] == teams[i]
  {
    if i == 0 {
      assert Unsaved(teams[..0], saved) == [];
    } else {
      UnsavedStandInOrder(teams[1..], saved, i - 1);
      assert teams[..i][1..] == teams[1..][..i - 1];
    }
  }

  /** The saved part of the list follows the saved order, without the ids that name no Team. */
  function Surviving(teams: seq<Team>, saved: seq<Id>): seq<Id> {
    if saved == [] then []
    else (if Names(teams, saved[0]) then [saved[0]] else []) + Surviving(teams, saved[1..])
  }

  lemma IdsJoin(teams: seq<Team>, more: seq<Team>)
    ensures Ids(teams + more) == Ids(teams) + Ids(more)
  {
  }

  lemma FoundIds(teams: seq<Team>, id: Id)
    requires Unique(teams)
    ensures Ids(Found(teams, id)) == if Names(teams, id) then [id] else []
  {
    FoundIsNamed(teams, id);
    if Found(teams, id) != [] {
      assert Found(teams, id)[0] in Found(teams, id);
    }
  }

  lemma {:induction false} PlacedFollowsSaved(teams: seq<Team>, saved: seq<Id>)
    requires Unique(teams)
    ensures Ids(Placed(teams, saved)) == Surviving(teams, saved)
  {
    if saved != [] {
      FoundIds(teams, saved[0]);
      PlacedFollowsSaved(teams, saved[1..]);
      IdsJoin(Found(teams, saved[0]), Placed(teams, saved[1..]));
    }
  }

  lemma {:induction false} AllSurvive(teams: seq<Team>, saved: seq<Id>)
    requires forall id <- saved :: Names(teams, id)
    ensures Surviving(teams, saved) == saved
  {
    if saved != [] {
      AllSurvive(teams, saved[1..]);
    }
  }

  lemma {:induction false} AllSaved(teams: seq<Team>, saved: seq<Id>)
    requires forall team <- teams :: team.id in saved
    ensures Unsaved(teams, saved) == []
  {
    if teams != [] {
      AllSaved(teams[1..], saved);
    }
  }

  lemma SameElements<T>(list: seq<T>, other: seq<T>)
    requires multiset(list) == multiset(other)
    ensures forall item :: item in list <==> item in other
  {
    assert forall item :: item in list <==> item in multiset(list);
    assert forall item :: item in other <==> item in multiset(other);
  }

  lemma PermutationNames(teams: seq<Team>, saved: seq<Id>)
    requires multiset(saved) == multiset(Ids(teams))
    ensures (forall id <- saved :: Names(teams, id)) && (forall team <- teams :: team.id in saved)
  {
    SameElements(saved, Ids(teams));
    forall id <- saved ensures Names(teams, id) {
      var i :| 0 <= i < |teams| && Ids(teams)[i] == id;
      assert teams[i] in teams;
    }
    forall i | 0 <= i < |teams| ensures teams[i].id in saved {
      assert Ids(teams)[i] in Ids(teams);
    }
  }

  /** An exact permutation of the Teams, once saved, is the list's order. */
  lemma SavedPermutationIsTheOrder(teams: seq<Team>, saved: seq<Id>)
    requires Unique(teams) && multiset(saved) == multiset(Ids(teams))
    ensures Ids(Arrange(teams, saved)) == saved && multiset(Arrange(teams, saved)) == multiset(teams)
    ensures Arrange(teams, saved) == Placed(teams, saved) && Distinct(saved)
  {
    PermutationNames(teams, saved);
    AllSaved(teams, saved);
    AllSurvive(teams, saved);
    PlacedFollowsSaved(teams, saved);
    IdsPermutationIsDistinct(teams, saved);
    ArrangeIsPermutation(teams, saved);
  }

  lemma PermutationIsDistinct<T>(list: seq<T>, other: seq<T>)
    requires Distinct(list) && multiset(list) == multiset(other)
    ensures Distinct(other)
  {
    forall i, j | 0 <= i < j < |other| ensures other[i] != other[j] {
      if other[i] == other[j] {
        TwiceInSequence(other, i, j);
        OnceInSequence(list, other[i]);
      }
    }
  }

  lemma IdsPermutationIsDistinct(teams: seq<Team>, saved: seq<Id>)
    requires Unique(teams) && multiset(saved) == multiset(Ids(teams))
    ensures Distinct(saved)
  {
    PermutationIsDistinct(Ids(teams), saved);
  }

  lemma TwiceInSequence<T>(list: seq<T>, i: nat, j: nat)
    requires i < j < |list| && list[i] == list[j]
    ensures multiset(list)[list[i]] >= 2
  {
    assert list == list[..j] + list[j..];
    assert list[..j][i] == list[i] && list[j..][0] == list[j];
  }

  lemma {:induction false} OnceInSequence<T>(list: seq<T>, item: T)
    requires Distinct(list)
    ensures multiset(list)[item] <= 1
  {
    if list != [] {
      OnceInSequence(list[1..], item);
      assert list == [list[0]] + list[1..];
      if item == list[0] {
        assert item !in list[1..];
      }
    }
  }

  /** The newest Team, while unsaved, is listed first. */
  lemma UnnamedLeads(teams: seq<Team>, saved: seq<Id>)
    requires teams != [] && teams[0].id !in saved
    ensures Arrange(teams, saved)[0] == teams[0]
  {
  }
}
