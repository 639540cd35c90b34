/**
 * One directory of a disk under the write-then-rename discipline.
 *
 * File data becomes durable when it is synced.  Directory operations take effect at once
 * and become durable later, in order: `journal` is the directory as it was after each
 * operation since the last one known to be durable.  A crash falls back to one of those
 * directories, and leaves arbitrary bytes in any file whose data was not synced.
 */
module DiskModel {
  type Bytes = seq<bv8>

  datatype Name = Document | Pending | Temporary(id: nat) | Quarantined(id: nat)

  datatype Inode = Inode(bytes: Bytes, synced: bool)

  /** `commits` counts the renames onto `Document` that led to this directory. */
  datatype Dir = Dir(entries: map<Name, nat>, commits: nat)

  datatype Disk = Disk(inodes: map<nat, Inode>, journal: seq<Dir>)

  ghost predicate WellFormed(d: Disk) {
    && |d.journal| > 0
    && (forall k, n :: 0 <= k < |d.journal| && n in d.journal[k].entries ==> d.journal[k].entries[n] in d.inodes)
    && (forall k, l :: 0 <= k <= l < |d.journal| ==> d.journal[k].commits <= d.journal[l].commits)
  }

  function Now(d: Disk): Dir
    requires |d.journal| > 0
  {
    d.journal[|d.journal| - 1]
  }

  predicate Exists(d: Disk, name: Name) {
    |d.journal| > 0 && name in Now(d).entries && Now(d).entries[name] in d.inodes
  }

  function InodeOf(d: Disk, name: Name): nat
    requires Exists(d, name)
  {
    Now(d).entries[name]
  }

  function Content(d: Disk, name: Name): Bytes
    requires Exists(d, name)
  {
    d.inodes[InodeOf(d, name)].bytes
  }

  /** Opens `name` for writing: an existing file is truncated, a missing one gets the unused inode `unused`. */
  function Create(d: Disk, name: Name, unused: nat): Disk
    requires |d.journal| > 0
  {
    if Exists(d, name) then Disk(d.inodes[InodeOf(d, name) := Inode([], false)], d.journal)
    else
      var now := Now(d);
      Disk(d.inodes[unused := Inode([], false)], d.journal + [now.(entries := now.entries[name := unused])])
  }

  function Append(d: Disk, inode: nat, chunk: Bytes): Disk
    requires inode in d.inodes
  {
    d.(inodes := d.inodes[inode := Inode(d.inodes[inode].bytes + chunk, false)])
  }

  function Sync(d: Disk, inode: nat): Disk
    requires inode in d.inodes
  {
    d.(inodes := d.inodes[inode := d.inodes[inode].(synced := true)])
  }

  function Rename(d: Disk, from: Name, to: Name): Disk
    requires Exists(d, from)
  {
    var now := Now(d);
    var entries := (now.entries - {from})[to := now.entries[from]];
    d.(journal := d.journal + [Dir(entries, if to == Document then now.commits + 1 else now.commits)])
  }

  function Remove(d: Disk, name: Name): Disk
    requires |d.journal| > 0
  {
    var now := Now(d);
    d.(journal := d.journal + [now.(entries := now.entries - {name})])
  }

  /** The first `k` directory operations of the journal become durable. */
  function Flush(d: Disk, k: nat): Disk
    requires k < |d.journal|
  {
    d.(journal := d.journal[k..])
  }

  /** What a file whose data was not synced holds after a crash; `torn` chooses. */
  function Survivor(inode: Inode, torn: Bytes): Inode {
    if inode.synced then inode else Inode(torn, true)
  }

  function Crash(d: Disk, k: nat, torn: map<nat, Bytes>): Disk
    requires k < |d.journal|
  {
    Disk(map i | i in d.inodes :: Survivor(d.inodes[i], if i in torn then torn[i] else d.inodes[i].bytes),
         [d.journal[k]])
  }
}
