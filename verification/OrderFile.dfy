/**
The saved Team order's file under the lifecycle steps the order lock serializes. A rename or an unlink shows at once and
survives a crash only when the directory was synced after it.
*/
module OrderFile {
  import opened Disks
  import opened Lists
  import opened TeamOrder
  import opened Wrappers

  /** What the file holds. A saved id carries the Team it was saved for, which only the model sees. */
  datatype Saved = Missing | Invalid | Order(teams: seq<Team>)

  /** How an atomic replacement ends: before its rename, after it but not durable, or durable. */
  datatype Write = NotReplaced | Unconfirmed | Durable

  /** How each file operation of one call ends. */
  datatype Io = Io(readable: bool, removable: bool, synced: bool, write: Write)

  datatype Refusal = InventoryUnavailable | Stale | OrderUnavailable

  predicate Holds(saved: Saved, id: Id) {
    saved.Order? && Names(saved.teams, id)
  }

  /** Without an id, exactly the other positions remain. */
  lemma WithoutKeepsOthers(teams: seq<Team>, id: Id)
    ensures !Names(Without(teams, IdOf, id), id)
    ensures forall team :: team in Without(teams, IdOf, id) <==> team in teams && team.id != id
  {
    forall team ensures team in Without(teams, IdOf, id) <==> team in teams && team.id != id {
      WithoutHolds(teams, IdOf, id, team);
    }
  }

  /** What a mutation reads: an invalid order counts as none once it is unlinked. */
  function Forgotten(saved: Saved, id: Id): Saved {
    if saved.Order? then (if Names(saved.teams, id) then Order(Without(saved.teams, IdOf, id)) else saved) else Missing
  }

  /** The one content now shown is the one a crash leaves, and it saves no position for the id. */
  predicate Releases(disk: Disk<Saved>, id: Id) {
    IsDurable(disk) && !disk.file.Invalid? && !Holds(disk.file, id)
  }

  /** A step that at most drops the id: each content it shows, now or after a crash, is old, gone, or that drop. */
  predicate Loses(before: Disk<Saved>, after: Disk<Saved>, id: Id) {
    && Kept(after)
    && forall saved <- after.possible ::
      saved in before.possible || saved == Forgotten(before.file, id) || saved == Missing
  }

  /** The saved order's operations, each under the lock of the lifecycle step that calls it. */
  class File {
    var disk: Disk<Saved>

    constructor ()
      ensures disk == Lasting(Missing)
    {
      disk := Lasting(Missing);
    }

    method SyncParent(syncs: bool) returns (ok: bool)
      requires Kept(disk)
      modifies this
      ensures ok == syncs && Kept(disk)
      ensures disk == if ok then Synced(old(disk)) else old(disk)
    {
      if syncs {
        disk := Synced(disk);
      }
      return syncs;
    }

    /** A failed replacement may still have shown the new content. */
    method Save(content: seq<Team>, write: Write) returns (ok: bool)
      requires Kept(disk)
      modifies this
      ensures ok <==> write.Durable?
      ensures ok ==> disk == Lasting(Order(content))
      ensures !ok ==> disk == old(disk) || disk == Renamed(old(disk), Order(content))
      ensures write.NotReplaced? ==> disk == old(disk)
    {
      if write.NotReplaced? {
        return false;
      }
      disk := Renamed(disk, Order(content));
      if write.Unconfirmed? {
        return false;
      }
      disk := Synced(disk);
      return true;
    }

    method UnlinkOwned(unlinks: bool) returns (ok: bool)
      requires Kept(disk)
      modifies this
      ensures ok == (unlinks || old(disk).file.Missing?)
      ensures disk == if ok then Renamed(old(disk), Missing) else old(disk)
    {
      if disk.file.Missing? {
        assert disk.possible + {Missing} == disk.possible;
        return true;
      }
      if unlinks {
        disk := Renamed(disk, Missing);
      }
      return unlinks;
    }

    /** The saved order a mutation edits, or nothing to edit; an invalid one is removed first. */
    method SavedForMutation(io: Io) returns (saved: Option<Saved>)
      requires Kept(disk)
      modifies this
      ensures Kept(disk) && (saved.None? ==> disk == old(disk))
      ensures saved.Some? ==> saved.value == disk.file && !disk.file.Invalid?
      ensures saved.Some? ==> if old(disk).file.Invalid? then disk == Renamed(old(disk), Missing)
                              else disk == old(disk)
      ensures io.readable && io.removable ==> saved.Some?
    {
      if disk.file.Order? && !io.readable {
        return None;
      }
      if disk.file.Invalid? {
        var unlinked := UnlinkOwned(io.removable);
        if !unlinked {
          return None;
        }
      }
      return Some(disk.file);
    }

    /** Takes an id's place out of the order and leaves the others; a success outlasts a crash. */
    method Forget(id: Id, io: Io) returns (ok: bool)
      requires Kept(disk)
      modifies this
      ensures Loses(old(disk), disk, id)
      ensures ok ==> Releases(disk, id) && disk.file == Forgotten(old(disk).file, id)
      ensures io == Io(true, true, true, Durable) ==> ok
    {
      var saved := SavedForMutation(io);
      if saved.None? {
        return false;
      }
      if saved.value.Order? && Names(saved.value.teams, id) {
        WithoutKeepsOthers(saved.value.teams, id);
        ok := Save(Without(saved.value.teams, IdOf, id), io.write);
      } else {
        ok := SyncParent(io.synced);
      }
    }

    /** Unlinks the order's file; something else found under its name is left there and refuses. */
    method Clear(io: Io, temporariesUnlink: bool) returns (ok: bool)
      requires Kept(disk)
      modifies this
      ensures Kept(disk) && forall saved <- disk.possible :: saved in old(disk).possible || saved == Missing
      ensures ok ==> disk == Lasting(Missing)
      ensures io.removable && temporariesUnlink && io.synced ==> ok
    {
      var unlinked := UnlinkOwned(io.removable);
      var synced := SyncParent(io.synced);
      return synced && unlinked && temporariesUnlink;
    }

    /**
    Before a Team id is created: refuses, or leaves no position the id could inherit, unless the inventory shows that
    the id names a Team now.
    */
    method ReleaseForCreate(id: Id, inventory: Option<seq<Team>>, io: Io) returns (refusal: Option<Refusal>)
      requires Kept(disk)
      modifies this
      ensures Loses(old(disk), disk, id)
      ensures refusal.None? ==> Releases(disk, id) || (inventory.Some? && Names(inventory.value, id))
      ensures refusal.None? && inventory.Some? && Names(inventory.value, id) && Holds(old(disk).file, id) ==>
                disk == old(disk)
      ensures inventory.Some? && io == Io(true, true, true, Durable) ==> refusal.None?
    {
      var saved := SavedForMutation(io);
      if saved.None? {
        return Some(OrderUnavailable);
      }
      if saved.value.Missing? || !Names(saved.value.teams, id) {
        var synced := SyncParent(io.synced);
        return if synced then None else Some(OrderUnavailable);
      }
      if inventory.None? {
        return Some(InventoryUnavailable);
      }
      if !Names(inventory.value, id) {
        WithoutKeepsOthers(saved.value.teams, id);
        var kept := Save(Without(saved.value.teams, IdOf, id), io.write);
        if !kept {
          return Some(OrderUnavailable);
        }
      }
      return None;
    }

    /** Only a list of exactly the Teams the inventory shows is saved, and answered in its order. */
    method Reorder(ids: seq<Id>, inventory: Option<seq<Team>>, io: Io) returns (listed: Result<seq<Team>, Refusal>)
      requires Kept(disk) && (inventory.Some? ==> Unique(inventory.value))
      modifies this
      ensures Kept(disk)
      ensures listed == Failure(InventoryUnavailable) <==> inventory.None?
      ensures listed == Failure(Stale) <==> inventory.Some? && multiset(ids) != multiset(Ids(inventory.value))
      ensures listed == Failure(InventoryUnavailable) || listed == Failure(Stale) ==> disk == old(disk)
      ensures listed.Success? <==>
              inventory.Some? && multiset(ids) == multiset(Ids(inventory.value)) && io.write.Durable?
      ensures listed.Success? ==>
                && Ids(listed.value) == ids && multiset(listed.value) == multiset(inventory.value)
                && disk == Lasting(Order(listed.value))
      ensures inventory.Some? ==>
                forall saved <- disk.possible ::
                  saved in old(disk).possible || saved == Order(Placed(inventory.value, ids))
    {
      if inventory.None? {
        return Failure(InventoryUnavailable);
      }
      if multiset(ids) != multiset(Ids(inventory.value)) {
        return Failure(Stale);
      }
      SavedPermutationIsTheOrder(inventory.value, ids);
      var saved := Save(Placed(inventory.value, ids), io.write);
      if !saved {
        return Failure(OrderUnavailable);
      }
      return Success(Arrange(inventory.value, ids));
    }
  }
}
