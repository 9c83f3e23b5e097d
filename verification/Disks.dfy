/**
A file that is replaced by a rename: the new content shows at once, and survives a loss of power only once its directory
was synced.
*/
module Disks {

  /** What the file shows now, and everything it may hold after a loss of power. */
  datatype Disk<T> = Disk(file: T, possible: set<T>)

  predicate Kept<T>(disk: Disk<T>) {
    disk.file in disk.possible
  }

  /** What the file shows is what a loss of power leaves. */
  predicate IsDurable<T>(disk: Disk<T>) {
    disk.possible == {disk.file}
  }

  function Lasting<T>(content: T): Disk<T> {
    Disk(content, {content})
  }

  function Synced<T>(disk: Disk<T>): Disk<T> {
    Lasting(disk.file)
  }

  function Renamed<T>(disk: Disk<T>, content: T): Disk<T> {
    Disk(content, disk.possible + {content})
  }
}
