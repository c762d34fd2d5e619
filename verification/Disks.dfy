/** A small model of files: what is stored, the names it has, and the calls that change either. */
module Disks {
  import opened Outcomes

  type Ino = nat

  newtype byte = x: int | 0 <= x < 256

  /** What an inode is. A file is flushed when all its bytes would outlast a stop. */
  datatype Node =
    | File(bytes: seq<byte>, mode: bv32, flushed: bool)
    | Dir(entries: map<string, Ino>)
    | Link(to: string)
    | Special

  /** Everything stored; no inode from `next` on was ever in use. */
  datatype Disk = Disk(nodes: map<Ino, Node>, next: Ino)

  datatype Errno = NOENT | NOTDIR | LOOP | ISDIR | PERM | EXIST | NOTEMPTY | NAMETOOLONG | OTHER(code: nat)

  /** The most bytes a name in a directory may have. */
  const LONGEST_NAME := 255

  predicate IsDir(disk: Disk, ino: Ino) {
    ino in disk.nodes && disk.nodes[ino].Dir?
  }

  function Entries(disk: Disk, dir: Ino): map<string, Ino>
    requires IsDir(disk, dir)
  {
    disk.nodes[dir].entries
  }

  ghost predicate Bounded(disk: Disk) {
    forall ino | ino in disk.nodes :: ino < disk.next
  }

  /** Every name stands for something stored, and no directory is in itself. */
  ghost predicate Sane(disk: Disk) {
    && Bounded(disk)
    && forall dir, name | IsDir(disk, dir) && name in Entries(disk, dir) ::
         Entries(disk, dir)[name] in disk.nodes && Entries(disk, dir)[name] != dir
  }

  /** Every name an inode has, as the directory it is in and how it is spelt there. */
  function NamesOf(disk: Disk, ino: Ino): set<(Ino, string)> {
    set dir, name | dir in disk.nodes && IsDir(disk, dir) && name in Entries(disk, dir)
                    && Entries(disk, dir)[name] == ino :: (dir, name)
  }

  function WithEntries(disk: Disk, dir: Ino, entries: map<string, Ino>): Disk {
    disk.(nodes := disk.nodes[dir := Dir(entries)])
  }

  // ------------------------------------------------------------- the calls

  /** `unlinkat` without a flag: removes a name, following nothing, of anything but a directory. */
  function Unlink(disk: Disk, dir: Ino, name: string): (Disk, Result<(), Errno>)
    requires IsDir(disk, dir)
  {
    var entries := Entries(disk, dir);
    if |name| > LONGEST_NAME then (disk, Err(NAMETOOLONG))
    else if name !in entries then (disk, Err(NOENT))
    else if IsDir(disk, entries[name]) then (disk, Err(ISDIR))
    else (WithEntries(disk, dir, entries - {name}), Ok(()))
  }

  /** `openat` to write, creating the name and refusing one that stands for anything. */
  function Create(disk: Disk, dir: Ino, name: string, mode: bv32): (Disk, Result<Ino, Errno>)
    requires IsDir(disk, dir)
  {
    var entries := Entries(disk, dir);
    if |name| > LONGEST_NAME then (disk, Err(NAMETOOLONG))
    else if name in entries then (disk, Err(EXIST))
    else
      var made := WithEntries(disk, dir, entries[name := disk.next]);
      (Disk(made.nodes[disk.next := File([], mode, false)], disk.next + 1), Ok(disk.next))
  }

  /** `fchmod` through the handle of a file. */
  function Chmod(disk: Disk, ino: Ino, mode: bv32): Disk {
    if ino in disk.nodes && disk.nodes[ino].File?
    then disk.(nodes := disk.nodes[ino := disk.nodes[ino].(mode := mode)])
    else disk
  }

  /** `write` through the handle of a file: `more` goes after what is there. */
  function Append(disk: Disk, ino: Ino, more: seq<byte>): Disk {
    if ino in disk.nodes && disk.nodes[ino].File?
    then disk.(nodes := disk.nodes[ino := disk.nodes[ino].(bytes := disk.nodes[ino].bytes + more, flushed := false)])
    else disk
  }

  /** `fsync` through the handle of a file. */
  function Flush(disk: Disk, ino: Ino): Disk {
    if ino in disk.nodes && disk.nodes[ino].File?
    then disk.(nodes := disk.nodes[ino := disk.nodes[ino].(flushed := true)])
    else disk
  }

  /** Why one inode may not be renamed over another. */
  function Unmovable(disk: Disk, from: Ino, over: Option<Ino>): Option<Errno> {
    if over.None? then None
    else if IsDir(disk, over.value) then
      if !IsDir(disk, from) then Some(ISDIR)
      else if Entries(disk, over.value) != map[] then Some(NOTEMPTY)
      else None
    else if IsDir(disk, from) then Some(NOTDIR)
    else None
  }

  /** `renameat` within one directory: replaces what stood at the new name, following nothing; two
      names of one file are left as they are. */
  function Rename(disk: Disk, dir: Ino, name: string, over: string): (Disk, Result<(), Errno>)
    requires IsDir(disk, dir)
  {
    var entries := Entries(disk, dir);
    if |name| > LONGEST_NAME || |over| > LONGEST_NAME then (disk, Err(NAMETOOLONG))
    else if name !in entries then (disk, Err(NOENT))
    else
      var moved, stood := entries[name], if over in entries then Some(entries[over]) else None;
      if stood == Some(moved) then (disk, Ok(()))
      else
        match Unmovable(disk, moved, stood)
        case Some(why) => (disk, Err(why))
        case None => (WithEntries(disk, dir, (entries - {name})[over := moved]), Ok(()))
  }

  // -------------------------------------------------------- what they keep

  /** An inode just made has the one name it was made under. */
  lemma FreshHasOneName(disk: Disk, dir: Ino, name: string, mode: bv32)
    requires Sane(disk)
    requires IsDir(disk, dir)
    requires Create(disk, dir, name, mode).1.Ok?
    ensures NamesOf(Create(disk, dir, name, mode).0, disk.next) == {(dir, name)}
  {
    var made := Create(disk, dir, name, mode).0;
    assert NamesOf(disk, disk.next) == {};
    assert NamesOf(made, disk.next) == NamesOf(disk, disk.next) + {(dir, name)} by {
      assert IsDir(made, dir) && name in Entries(made, dir);
    }
  }
}
