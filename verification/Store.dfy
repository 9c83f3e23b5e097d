/**
Where Admin keeps its record: one file that is replaced atomically, a cache keyed by the file's identity, and
the journaled read-modify-write transaction every durable change runs in.

The file's text is modelled by what it parses to. A file identity (device, inode, times and size) is a number; that a
replacement never reuses one is the assumption `IsFresh` carries.
*/
module Store {
  import opened Disks
  import Sessions
  import opened Wrappers

  datatype StateError =
    | Corrupt
    | Io
    | PasswordRecord
    | TotpError
    | PasskeyInvalid
    | PasskeyConflict
    | Authority
    | Rotation
    | AlreadyConfigured
    | Audit

  /** How the part of a transaction outside the update went. */
  datatype Commit =
    | JournalRefuses  // the journal refused the outcome
    | NotReplaced     // the file could not be replaced
    | Unconfirmed     // the file was replaced, but syncing its directory or reading its identity failed
    | Persisted

  /**
  What one transaction does to the stored value, whatever `updated` computed: the value it leaves in the file, and
  what it answers.
  */
  function Transact<T, R>(data: T, updated: Result<(T, R), StateError>, writes: bool, commit: Commit)
    : (T, Result<R, StateError>)
  {
    match updated
    case Failure(error) => (data, Failure(error))
    case Success((next, result)) =>
      if !writes then (data, Success(result))
      else match commit
        case JournalRefuses => (data, Failure(Audit))
        case NotReplaced => (data, Failure(Io))
        case Unconfirmed => (next, Failure(Io))
        case Persisted => (next, Success(result))
  }

  /** The same on the disk: a replacement shows at once and, confirmed, is all a loss of power leaves. */
  function Committed<T, R>(disk: Disk<T>, updated: Result<(T, R), StateError>, writes: bool, commit: Commit)
    : (Disk<T>, Result<R, StateError>)
  {
    var (next, answer) := Transact(disk.file, updated, writes, commit);
    if !(updated.Success? && writes && commit in {Unconfirmed, Persisted}) then (disk, answer)
    else if commit.Persisted? then (Synced(Renamed(disk, next)), answer)
    else (Renamed(disk, next), answer)
  }

  /**
  A transaction that answers success left what the update computed, unless that was not to be written; one that fails
  leaves the value it read, unless its replacement was renamed and not confirmed. A confirmed one is durable.
  */
  lemma TransactionDecides<T, R>(disk: Disk<T>, updated: Result<(T, R), StateError>, writes: bool, commit: Commit)
    ensures var (next, answer) := Committed(disk, updated, writes, commit);
      && (next.file, answer) == Transact(disk.file, updated, writes, commit)
      && (answer.Success? <==> updated.Success? && (!writes || commit.Persisted?))
      && (answer.Success? ==> answer.value == updated.value.1)
      && next.file == (if updated.Success? && writes && (commit.Persisted? || commit.Unconfirmed?)
                       then updated.value.0 else disk.file)
      && (updated.Success? && writes && commit.Persisted? ==> next.possible == {next.file})
      && (updated.Success? && writes && commit.Unconfirmed? ==> next.possible == disk.possible + {next.file})
      && (updated.Failure? || !writes || commit.JournalRefuses? || commit.NotReplaced? ==> next == disk)
      && (answer.Failure? ==> answer.error == if updated.Failure? then updated.error
                                              else if commit.JournalRefuses? then Audit else Io)
  {
  }

  // ---- The file, its text, and the cache ----

  type Members = map<string, string>

  /** What a file's bytes parse to: an object, another JSON value, or nothing at all. */
  datatype Text = Object(members: Members) | OtherValue | Unparsable

  datatype File = File(identity: nat, text: Text)

  datatype Cache = Cache(identity: Option<nat>, text: Text)

  function IdentityOf(file: Option<File>): Option<nat> {
    if file.None? then None else Some(file.value.identity)
  }

  /** The store as a fresh read of the file gives it: a missing file is the empty object. */
  function Parsed(file: Option<File>): Result<Members, StateError> {
    match file
    case None => Success(map[])
    case Some(File(_, Object(members))) => Success(members)
    case Some(_) => Failure(Corrupt)
  }

  const SESSION_SECRET := "session_secret"

  function Secret(data: Members): Option<string> {
    if SESSION_SECRET in data then Some(data[SESSION_SECRET]) else None
  }

  /** Both hold the member with one value, or neither does. */
  predicate SameMember(one: Members, other: Members, name: string) {
    (name in one <==> name in other) && (name in one && name in other ==> one[name] == other[name])
  }

  /** What happens to a read of the file: nothing, a failed call, or another process's replacement in its midst. */
  datatype Reading = Quiet | NoStat | NoRead | ReplacedMeanwhile(replacement: Option<File>)

  /** The file another process leaves, under an identity no file at the path ever had. */
  predicate IsFresh(replacement: Option<File>, identities: set<nat>) {
    replacement.Some? ==> replacement.value.identity !in identities
  }

  /** The store's lock-protected state, and the sessions a rotated secret ends. */
  class Store {
    const sessions: Sessions.Sessions
    var file: Option<File>
    var cache: Option<Cache>
    // Every identity any file at the path ever had.
    ghost var identities: set<nat>

    ghost predicate Valid()
      reads this, sessions
    {
      && sessions.Valid()
      && (file.Some? ==> file.value.identity in identities)
      && (cache.Some? && cache.value.identity.Some? ==> cache.value.identity.value in identities)
      && (cache.Some? ==> cache.value.text.Object?)
    }

    /** What is cached under the file's identity is what the file holds. */
    ghost predicate Coherent()
      reads this
    {
      && (cache.Some? && cache.value.identity.None? ==> cache.value.text == Object(map[]))
      && (cache.Some? && file.Some? && cache.value.identity == Some(file.value.identity) ==>
            cache.value.text == file.value.text)
    }

    constructor (existing: Option<File>, sessions: Sessions.Sessions)
      requires sessions.Valid()
      ensures Valid() && Coherent() && file == existing && cache == None && this.sessions == sessions
    {
      this.sessions := sessions;
      file, cache := existing, None;
      identities := if existing.Some? then {existing.value.identity} else {};
    }

    /** Another process replaces or removes the file behind the store's back. */
    method ReplacedElsewhere(replacement: Option<File>)
      requires Valid() && IsFresh(replacement, identities)
      modifies this`file, this`identities
      ensures Valid() && file == replacement && (old(Coherent()) ==> Coherent())
      ensures identities == old(identities) + if replacement.Some? then {replacement.value.identity} else {}
    {
      file := replacement;
      if replacement.Some? {
        identities := identities + {replacement.value.identity};
      }
    }

    /**
    Reads the file through the cache. An answer is what parsing the file gives at the moment its identity is taken; a
    file replaced while it is read is refused as corrupt, and a failure leaves the cache as it was.
    */
    method ReadLocked(reading: Reading) returns (r: Result<Members, StateError>)
      requires Valid() && Coherent()
      requires reading.ReplacedMeanwhile? ==> IsFresh(reading.replacement, identities)
      modifies this`file, this`cache, this`identities
      ensures Valid() && Coherent()
      ensures file == if reading.ReplacedMeanwhile? then reading.replacement else old(file)
      ensures !reading.ReplacedMeanwhile? ==> identities == old(identities)
      ensures r.Success? ==> r == Parsed(old(file))
      ensures r.Failure? ==> cache == old(cache)
      ensures reading.Quiet? ==> r == Parsed(file)
      ensures r == Failure(Io) ==> reading.NoStat? || reading.NoRead?
      ensures r == Failure(Corrupt) ==> reading.ReplacedMeanwhile? || Parsed(old(file)) == r
      ensures r.Failure? ==> r.error in {Io, Corrupt}
    {
      var read := file;
      if reading.ReplacedMeanwhile? {
        ReplacedElsewhere(reading.replacement);
      }
      if reading.NoStat? {
        return Failure(Io);
      }
      var identity := IdentityOf(read);
      if cache.Some? && cache.value.identity == identity {
        return Success(cache.value.text.members);
      }
      var text := if read.None? then Object(map[]) else read.value.text;
      if read.Some? {
        if reading.NoRead? {
          return Failure(Io);
        }
        if !text.Object? || IdentityOf(file) != identity {
          return Failure(Corrupt);
        }
      }
      cache := Some(Cache(identity, text));
      r := Success(text.members);
    }

    /** A quiet read answers exactly what parsing the file now would, whoever replaced it before. */
    method Get(reading: Reading) returns (r: Result<Members, StateError>)
      requires Valid() && Coherent()
      requires reading.ReplacedMeanwhile? ==> IsFresh(reading.replacement, identities)
      modifies this`file, this`cache, this`identities
      ensures Valid() && Coherent()
      ensures r.Success? ==> r == Parsed(old(file))
      ensures reading.Quiet? ==> r == Parsed(file)
      ensures reading.Quiet? ==>
                if file.None? then r == Success(map[])
                else if file.value.text.Object? then r == Success(file.value.text.members) else r == Failure(Corrupt)
      ensures r.Failure? ==> r.error in {Io, Corrupt}
    {
      r := ReadLocked(reading);
    }

    /**
    Replaces the file. A replacement that fails leaves the cache as it was, also after its rename. A confirmed one
    caches what it wrote under the identity it then finds at the path: that is coherent if and only if no other
    process's replacement of another content fell in between.
    */
    method WriteLocked(data: Members, commit: Commit, newIdentity: nat, between: Option<Option<File>>)
      returns (written: bool)
      requires Valid() && Coherent() && newIdentity !in identities && !commit.JournalRefuses?
      requires between.Some? ==> IsFresh(between.value, identities + {newIdentity})
      modifies this`file, this`cache, this`identities
      ensures Valid() && written == commit.Persisted?
      ensures commit.NotReplaced? ==> file == old(file)
      ensures !commit.NotReplaced? ==>
                file == if between.Some? then between.value else Some(File(newIdentity, Object(data)))
      ensures !written ==> cache == old(cache) && Coherent()
      ensures written ==> cache == Some(Cache(IdentityOf(file), Object(data)))
      ensures written ==> (Coherent() <==> between.None? || Parsed(between.value) == Success(data))
    {
      if commit.NotReplaced? {
        return false;
      }
      file := Some(File(newIdentity, Object(data)));
      identities := identities + {newIdentity};
      if between.Some? {
        ReplacedElsewhere(between.value);
      }
      if commit.Unconfirmed? {
        return false;
      }
      cache := Some(Cache(IdentityOf(file), Object(data)));
      written := true;
    }

    /**
    One transaction with no other process in its midst. A success left what the update computed, if that was to be
    written, and a failure left what was read, unless a rename was not confirmed. Every tracked session ends, at once,
    exactly when it answers success with another session secret than it read.
    */
    method Mutate<R>(update: Members -> Result<(Members, R), StateError>, shouldWrite: R -> bool, reading: Reading,
                     commit: Commit, newIdentity: nat)
      returns (r: Result<R, StateError>)
      requires Valid() && Coherent() && newIdentity !in identities && !reading.ReplacedMeanwhile?
      modifies this, sessions
      ensures Valid() && Coherent()
      ensures !(reading in {NoStat, NoRead} && r == Failure(Io) && file == old(file)) ==>
        var read := Parsed(old(file));
        if read.Failure? then r == Failure(read.error) && Parsed(file) == read && file == old(file)
        else
          var updated := update(read.value);
          var writes := updated.Success? && shouldWrite(updated.value.1);
          && Parsed(file) ==
             Success(if writes && commit in {Unconfirmed, Persisted} then updated.value.0 else read.value)
          && (file != old(file) ==> writes && commit in {Unconfirmed, Persisted})
          && (r.Success? <==> updated.Success? && (!writes || commit.Persisted?))
          && (r.Success? ==> r.value == updated.value.1)
          && (r.Failure? ==> r.error == if updated.Failure? then updated.error
                                        else if commit.JournalRefuses? then Audit else Io)
      ensures r.Failure? ==> sessions.log == old(sessions.log)
      ensures r.Success? && Parsed(file).Success? && Parsed(old(file)).Success? ==>
        sessions.log == old(sessions.log) +
          if SameMember(Parsed(file).value, Parsed(old(file)).value, "session_secret") then []
          else [Sessions.Ended(Sessions.Tracked(old(sessions.log)))]
    {
      var read := ReadLocked(reading);
      if read.Failure? {
        return Failure(read.error);
      }
      var secret := Secret(read.value);
      var updated := update(read.value);
      if updated.Failure? {
        return Failure(updated.error);
      }
      var (data, result) := updated.value;
      if !shouldWrite(result) {
        return Success(result);
      }
      if commit.JournalRefuses? {
        return Failure(Audit);
      }
      var written := WriteLocked(data, commit, newIdentity, None);
      if !written {
        return Failure(Io);
      }
      if Secret(data) != secret {
        sessions.EndAll();
      }
      r := Success(result);
    }
  }
}
