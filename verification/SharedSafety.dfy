/** One writer with nothing else at work, stopped after any step: its target holds the old file
    whole or the new one whole. */
module SharedSafety {
  import opened Outcomes
  import opened Disks
  import opened SharedFiles

  // -------------------------------------------------------- what is reached

  /** Everything stored before is as it was, the written directory's entries apart. */
  ghost predicate OthersKept(job: Job, found: Disk, disk: Disk) {
    && IsDir(found, job.dir) && IsDir(disk, job.dir)
    && forall ino | ino in found.nodes && ino != job.dir :: ino in disk.nodes && disk.nodes[ino] == found.nodes[ino]
  }

  /** The new file, with what has been written of it so far. */
  ghost predicate MadeFile(job: Job, found: Disk, disk: Disk, ino: Ino) {
    && ino == found.next && ino !in found.nodes && ino in disk.nodes && disk.nodes[ino].File?
    && disk.nodes.Keys == found.nodes.Keys + {ino}
    && OthersKept(job, found, disk)
  }

  /** Whether no directory stood at `name`. */
  ghost predicate NoDirectory(job: Job, found: Disk, name: string)
    requires IsDir(found, job.dir)
  {
    name in Entries(found, job.dir) ==> !IsDir(found, Entries(found, job.dir)[name])
  }

  ghost predicate Staged(job: Job, found: Disk, disk: Disk, ino: Ino) {
    && MadeFile(job, found, disk, ino)
    && NoDirectory(job, found, StagingOf(job.name))
    && Entries(disk, job.dir) == Entries(found, job.dir)[StagingOf(job.name) := ino]
  }

  function Whole(job: Job): Node {
    File(job.contents, Permitted(job.mode), true)
  }

  /** The new file, whole, under the target's name, and the staging name gone. */
  ghost predicate Placed(job: Job, found: Disk, disk: Disk, ino: Ino) {
    && MadeFile(job, found, disk, ino)
    && disk.nodes[ino] == Whole(job)
    && NoDirectory(job, found, StagingOf(job.name)) && NoDirectory(job, found, job.name)
    && Entries(disk, job.dir) == (Entries(found, job.dir) - {StagingOf(job.name)})[job.name := ino]
  }

  ghost predicate StagingFreed(job: Job, found: Disk, disk: Disk) {
    var staging := StagingOf(job.name);
    && OthersKept(job, found, disk)
    && disk.next == found.next && disk.nodes.Keys == found.nodes.Keys
    && (Entries(disk, job.dir) == Entries(found, job.dir)
        || (NoDirectory(job, found, staging) && Entries(disk, job.dir) == Entries(found, job.dir) - {staging}))
  }

  /** Every name but the staging one stands for what it stood for. */
  ghost predicate NamesKept(job: Job, found: Disk, disk: Disk) {
    && OthersKept(job, found, disk)
    && forall name | name != StagingOf(job.name) ::
         && (name in Entries(disk, job.dir) <==> name in Entries(found, job.dir))
         && (name in Entries(disk, job.dir) ==> Entries(disk, job.dir)[name] == Entries(found, job.dir)[name])
  }

  /** What a write that was refused may leave: at most the file it made, under its staging name. */
  ghost predicate Left(job: Job, found: Disk, disk: Disk) {
    var staging := StagingOf(job.name);
    && NamesKept(job, found, disk)
    && disk.nodes.Keys <= found.nodes.Keys + {found.next}
    && (found.next in disk.nodes ==> disk.nodes[found.next].File?)
    && (staging in Entries(disk, job.dir) && Entries(disk, job.dir)[staging] == found.next ==> found.next in disk.nodes)
    && (NoDirectory(job, found, staging)
        || (staging in Entries(disk, job.dir) && Entries(disk, job.dir)[staging] == Entries(found, job.dir)[staging]))
    && (staging in Entries(disk, job.dir) ==>
          || Entries(disk, job.dir)[staging] == found.next
          || (staging in Entries(found, job.dir)
              && Entries(disk, job.dir)[staging] == Entries(found, job.dir)[staging]))
  }

  /** What the disk is at each step of a write. */
  ghost predicate Reached(job: Job, found: Disk, disk: Disk, w: Writer) {
    match w
    case Clearing => disk == found
    case Creating => StagingFreed(job, found, disk)
    case Checking(ino) => Staged(job, found, disk, ino) && disk.nodes[ino].bytes == []
    case Moding(ino) => Staged(job, found, disk, ino) && disk.nodes[ino].bytes == []
    case Filling(ino, done) =>
      && Staged(job, found, disk, ino)
      && done <= |job.contents| && disk.nodes[ino].bytes == job.contents[..done]
      && disk.nodes[ino].mode == Permitted(job.mode)
    case Moving(ino) => Staged(job, found, disk, ino) && disk.nodes[ino] == Whole(job)
    case Settling(ino) => Placed(job, found, disk, ino)
    case Finished(ino) => Placed(job, found, disk, ino)
    case Cleaning(ino, _) => Staged(job, found, disk, ino)
    case Refused(_) => Left(job, found, disk)
  }

  lemma NameIsNotStaging(name: string)
    ensures StagingOf(name) != name
  {
    assert |StagingOf(name)| > |name|;
  }

  lemma ClearingReaches(job: Job, found: Disk, chance: Chance)
    requires IsDir(found, job.dir) && Sane(found)
    ensures Reached(job, found, Advance(job, found, Clearing, chance).0, Advance(job, found, Clearing, chance).1)
  {
  }

  lemma CreatingReaches(job: Job, found: Disk, disk: Disk, chance: Chance)
    requires IsDir(found, job.dir) && Sane(found) && Fits(job, disk, Creating)
    requires Reached(job, found, disk, Creating)
    ensures Reached(job, found, Advance(job, disk, Creating, chance).0, Advance(job, disk, Creating, chance).1)
  {
  }

  lemma CheckingReaches(job: Job, found: Disk, disk: Disk, w: Writer, chance: Chance)
    requires IsDir(found, job.dir) && Bounded(found) && Fits(job, disk, w)
    requires Reached(job, found, disk, w)
    requires w.Checking? || w.Moding?
    ensures Reached(job, found, Advance(job, disk, w, chance).0, Advance(job, disk, w, chance).1)
  {
    hide NamesOf, StagingOf, Bounded, Permitted;
  }

  lemma FillingReaches(job: Job, found: Disk, disk: Disk, w: Writer, chance: Chance)
    requires IsDir(found, job.dir) && Bounded(found) && Fits(job, disk, w)
    requires Reached(job, found, disk, w)
    requires w.Filling?
    ensures Reached(job, found, Advance(job, disk, w, chance).0, Advance(job, disk, w, chance).1)
  {
    hide NamesOf, StagingOf, Bounded, Permitted;
    if w.done < |job.contents| && chance.fault.None? && chance.taken > 0 {
      var end := if chance.taken < |job.contents| - w.done then w.done + chance.taken else |job.contents|;
      assert job.contents[..w.done] + job.contents[w.done..end] == job.contents[..end];
    }
    assert job.contents[..|job.contents|] == job.contents;
  }

  /** Renaming the staged file puts it at the target and frees its staging name, or does nothing. */
  lemma RenameStaged(job: Job, found: Disk, disk: Disk, ino: Ino)
    requires Sane(found) && Staged(job, found, disk, ino)
    ensures var (after, r) := Rename(disk, job.dir, StagingOf(job.name), job.name);
            if r.Err? then after == disk
            else after == WithEntries(disk, job.dir, (Entries(found, job.dir) - {StagingOf(job.name)})[job.name := ino])
  {
    NameIsNotStaging(job.name);
    hide StagingOf, Bounded;
    var staging := StagingOf(job.name);
    var entries := Entries(found, job.dir);
    var staged: map<string, Ino> := entries[staging := ino];
    assert staged - {staging} == entries - {staging};
    assert job.name in entries ==> entries[job.name] in found.nodes;
  }

  lemma MovingReaches(job: Job, found: Disk, disk: Disk, ino: Ino, chance: Chance)
    requires Sane(found) && IsDir(found, job.dir) && Fits(job, disk, Moving(ino))
    requires Reached(job, found, disk, Moving(ino))
    ensures Reached(job, found, Advance(job, disk, Moving(ino), chance).0, Advance(job, disk, Moving(ino), chance).1)
  {
    RenameStaged(job, found, disk, ino);
    hide Rename, StagingOf, Whole, Bounded;
  }

  lemma CleaningReaches(job: Job, found: Disk, disk: Disk, w: Writer, chance: Chance)
    requires Sane(found) && IsDir(found, job.dir) && Fits(job, disk, w)
    requires Reached(job, found, disk, w)
    requires w.Settling? || w.Cleaning?
    ensures Reached(job, found, Advance(job, disk, w, chance).0, Advance(job, disk, w, chance).1)
  {
    NameIsNotStaging(job.name);
    hide StagingOf, Whole, Bounded;
  }

  lemma {:induction false} RanReaches(job: Job, found: Disk, luck: nat -> Chance, n: nat)
    requires Sane(found) && IsDir(found, job.dir)
    ensures Reached(job, found, Ran(job, found, luck, n).0, Ran(job, found, luck, n).1)
  {
    if n > 0 {
      RanReaches(job, found, luck, n - 1);
      var (disk, w) := Ran(job, found, luck, n - 1);
      hide Advance, Reached;
      match w {
        case Clearing => ClearingReaches(job, found, luck(n - 1)); StillClearing(job, found, disk);
        case Creating => CreatingReaches(job, found, disk, luck(n - 1));
        case Checking(_) => CheckingReaches(job, found, disk, w, luck(n - 1));
        case Moding(_) => CheckingReaches(job, found, disk, w, luck(n - 1));
        case Filling(_, _) => FillingReaches(job, found, disk, w, luck(n - 1));
        case Finished(_) => OverStays(job, disk, w, luck(n - 1));
        case Refused(_) => OverStays(job, disk, w, luck(n - 1));
        case Moving(ino) => MovingReaches(job, found, disk, ino, luck(n - 1));
        case _ => CleaningReaches(job, found, disk, w, luck(n - 1));
      }
    }
  }

  lemma StillClearing(job: Job, found: Disk, disk: Disk)
    requires Reached(job, found, disk, Clearing)
    ensures disk == found
  {
  }

  lemma OverStays(job: Job, disk: Disk, w: Writer, chance: Chance)
    requires Fits(job, disk, w) && Over(w)
    ensures Advance(job, disk, w, chance) == (disk, w)
  {
  }

  // ------------------------------------------------------------ the promise

  /** What a name in the written directory holds. */
  function Holds(disk: Disk, dir: Ino, name: string): Option<Node>
    requires IsDir(disk, dir)
  {
    if name in Entries(disk, dir) && Entries(disk, dir)[name] in disk.nodes
    then Some(disk.nodes[Entries(disk, dir)[name]]) else None
  }

  /** Stopped after any step, whatever failed, the target holds exactly what it held before, until
      the rename; and from then on the new contents whole, flushed, at the kept mode, in a file
      that was not there before. A write that failed leaves it as it was. */
  lemma OldWholeOrNewWhole(job: Job, found: Disk, luck: nat -> Chance, n: nat)
    requires Sane(found) && IsDir(found, job.dir)
    ensures var (disk, w) := Ran(job, found, luck, n);
            && IsDir(disk, job.dir)
            && Holds(disk, job.dir, job.name)
                 == (if w.Settling? || w.Finished? then Some(Whole(job)) else Holds(found, job.dir, job.name))
            && (w.Settling? || w.Finished? ==> Entries(disk, job.dir)[job.name] !in found.nodes)
  {
    hide Ran, Reached, Placed, NamesKept, OthersKept, StagingOf, Holds, MadeFile, Whole;
    RanReaches(job, found, luck, n);
    var (disk, w) := Ran(job, found, luck, n);
    if w.Settling? || w.Finished? {
      PlacedHolds(job, found, disk, w);
    } else {
      UnmovedKeeps(job, found, disk, w);
      KeptHolds(job, found, disk, job.name);
    }
  }

  lemma PlacedHolds(job: Job, found: Disk, disk: Disk, w: Writer)
    requires Reached(job, found, disk, w)
    requires w.Settling? || w.Finished?
    ensures Placed(job, found, disk, w.ino)
    ensures IsDir(disk, job.dir) && Holds(disk, job.dir, job.name) == Some(Whole(job))
    ensures job.name in Entries(disk, job.dir) && Entries(disk, job.dir)[job.name] !in found.nodes
  {
    hide StagingOf, Whole;
  }

  /** Until the rename, no name but the staging one changes. */
  lemma UnmovedKeeps(job: Job, found: Disk, disk: Disk, w: Writer)
    requires Sane(found) && IsDir(found, job.dir)
    requires Reached(job, found, disk, w)
    requires !w.Settling? && !w.Finished?
    ensures NamesKept(job, found, disk)
  {
    hide StagingOf, Whole, Bounded;
  }

  lemma KeptHolds(job: Job, found: Disk, disk: Disk, name: string)
    requires Sane(found) && NamesKept(job, found, disk)
    requires name != StagingOf(job.name) || name == job.name
    ensures IsDir(disk, job.dir) && Holds(disk, job.dir, name) == Holds(found, job.dir, name)
  {
    NameIsNotStaging(job.name);
    hide StagingOf, Bounded;
  }

  /** At every step nothing else stored changes, nor any name but the target's and its staging
      one; and a finished write leaves no staging name. */
  lemma NothingElseChanges(job: Job, found: Disk, luck: nat -> Chance, n: nat, name: string)
    requires Sane(found) && IsDir(found, job.dir)
    ensures var (disk, w) := Ran(job, found, luck, n);
            && OthersKept(job, found, disk)
            && (name != job.name && name != StagingOf(job.name) ==>
                  Holds(disk, job.dir, name) == Holds(found, job.dir, name))
            && (w.Finished? ==> StagingOf(job.name) !in Entries(disk, job.dir))
  {
    hide Ran, Reached, Placed, NamesKept, OthersKept, StagingOf, Holds, MadeFile;
    RanReaches(job, found, luck, n);
    var (disk, w) := Ran(job, found, luck, n);
    if w.Settling? || w.Finished? {
      PlacedHolds(job, found, disk, w);
      PlacedKeeps(job, found, disk, w.ino, name);
    } else {
      UnmovedKeeps(job, found, disk, w);
      OthersOf(job, found, disk);
      if name != job.name && name != StagingOf(job.name) {
        KeptHolds(job, found, disk, name);
      }
    }
  }

  lemma OthersOf(job: Job, found: Disk, disk: Disk)
    requires NamesKept(job, found, disk)
    ensures OthersKept(job, found, disk)
  {
  }

  lemma PlacedKeeps(job: Job, found: Disk, disk: Disk, ino: Ino, name: string)
    requires Sane(found) && Placed(job, found, disk, ino)
    ensures OthersKept(job, found, disk)
    ensures name != job.name && name != StagingOf(job.name) ==>
              Holds(disk, job.dir, name) == Holds(found, job.dir, name)
    ensures StagingOf(job.name) !in Entries(disk, job.dir)
  {
    NameIsNotStaging(job.name);
    hide StagingOf, Whole, Bounded;
  }

  // ------------------------------------------------------------------ modes

  /** The bits of octal 644: the owner may read and write, everyone else may read. */
  const READABLE: bv32 := 0x1A4

  /** A finished write leaves its target with exactly those bits of octal 644 that were asked for. */
  lemma TargetMode(job: Job, found: Disk, luck: nat -> Chance, n: nat)
    requires Sane(found) && IsDir(found, job.dir)
    ensures var (disk, w) := Ran(job, found, luck, n);
            w.Settling? || w.Finished? ==>
              && Holds(disk, job.dir, job.name).Some? && Holds(disk, job.dir, job.name).value.File?
              && var mode := Holds(disk, job.dir, job.name).value.mode;
                 mode & !READABLE == 0 && mode & READABLE == job.mode & READABLE
  {
    OldWholeOrNewWhole(job, found, luck, n);
    KeptBits(job.mode, job.umask);
    hide Ran, Holds, Permitted;
  }

  /** And from its creation on, whatever the umask and whatever failed, the file a write made never
      has a bit that was not asked for, nor one beside octal 644. */
  lemma {:induction false} MadeMode(job: Job, found: Disk, luck: nat -> Chance, n: nat)
    requires Sane(found) && IsDir(found, job.dir)
    ensures Modest(job, found.next, Ran(job, found, luck, n).0)
  {
    if n == 0 {
      assert found.next !in found.nodes;
    } else {
      hide Reached, Advance, Modest, Sane, Bounded;
      MadeMode(job, found, luck, n - 1);
      RanReaches(job, found, luck, n - 1);
      var (disk, w) := Ran(job, found, luck, n - 1);
      ModeStep(job, found, disk, w, luck(n - 1));
    }
  }

  /** Whether a mode has no bit but those asked for of octal 644. */
  predicate Sparing(mode: bv32, asked: bv32) {
    mode & !asked == 0 && mode & !READABLE == 0
  }

  /** Whether the inode, if it is there, is a file with such a mode. */
  ghost predicate Modest(job: Job, ino: Ino, disk: Disk) {
    ino in disk.nodes ==> disk.nodes[ino].File? && Sparing(disk.nodes[ino].mode, job.mode)
  }

  lemma ModeStep(job: Job, found: Disk, disk: Disk, w: Writer, chance: Chance)
    requires Fits(job, disk, w)
    requires Reached(job, found, disk, w)
    requires Modest(job, found.next, disk)
    ensures Modest(job, found.next, Advance(job, disk, w, chance).0)
  {
    KeptBits(job.mode, job.umask);
    hide StagingOf, NamesOf, Permitted, Unmovable, OthersKept, NoDirectory, Sparing, Create, Chmod, Filled;
    match w {
      case Creating =>
        CreateMode(job, found.next, disk, StagingOf(job.name), Permitted(job.mode) & !job.umask);
      case Clearing =>
        SameFiles(job, found.next, disk, Unlink(disk, job.dir, StagingOf(job.name)).0);
      case Moving(_) =>
        hide Rename;
        RenameMode(job, found.next, disk);
      case Moding(ino) =>
        ChmodMode(job, found.next, disk, ino);
      case Filling(ino, done) =>
        FilledMode(job, found.next, disk, ino, done, chance);
      case Cleaning(_, _) =>
        SameFiles(job, found.next, disk, Unlink(disk, job.dir, StagingOf(job.name)).0);
      case _ =>
    }
  }

  lemma KeptBits(mode: bv32, umask: bv32)
    ensures Permitted(mode) & !READABLE == 0 && Permitted(mode) & READABLE == mode & READABLE
    ensures Sparing(Permitted(mode), mode) && Sparing(Permitted(mode) & !umask, mode)
  {
  }

  lemma CreateMode(job: Job, ino: Ino, disk: Disk, name: string, mode: bv32)
    requires IsDir(disk, job.dir) && Sparing(mode, job.mode)
    requires Modest(job, ino, disk)
    ensures Modest(job, ino, Create(disk, job.dir, name, mode).0)
  {
    hide Sparing;
  }

  lemma ChmodMode(job: Job, ino: Ino, disk: Disk, other: Ino)
    requires Modest(job, ino, disk)
    ensures Modest(job, ino, Chmod(disk, other, Permitted(job.mode)))
  {
    KeptBits(job.mode, job.umask);
    hide Permitted, Sparing;
  }

  lemma FilledMode(job: Job, ino: Ino, disk: Disk, other: Ino, done: nat, chance: Chance)
    requires done <= |job.contents| && Modest(job, ino, disk)
    ensures Modest(job, ino, Filled(job, disk, other, done, chance).0)
  {
    hide Sparing;
  }

  /** A call that changes entries alone changes no file. */
  lemma SameFiles(job: Job, ino: Ino, disk: Disk, after: Disk)
    requires Modest(job, ino, disk)
    ensures (ino in after.nodes ==>
               ino in disk.nodes && (disk.nodes[ino].File? ==> after.nodes[ino] == disk.nodes[ino]))
            ==> Modest(job, ino, after)
  {
  }

  lemma RenameMode(job: Job, ino: Ino, disk: Disk)
    requires IsDir(disk, job.dir)
    requires Modest(job, ino, disk)
    ensures Modest(job, ino, Rename(disk, job.dir, StagingOf(job.name), job.name).0)
  {
    hide StagingOf, Unmovable, Sparing;
  }

  // -------------------------------------------------------------- completion

  /** Chance that fails no step and lets every write take something. */
  ghost predicate Kind(luck: nat -> Chance) {
    forall i: nat :: luck(i).fault.None? && luck(i).taken > 0
  }

  /** Nothing stands where the write must go: no directory at either name, and the staging name
      not too long for one. */
  predicate Unobstructed(job: Job, found: Disk)
    requires IsDir(found, job.dir)
  {
    var entries, staging := Entries(found, job.dir), StagingOf(job.name);
    && |staging| <= LONGEST_NAME
    && !(staging in entries && IsDir(found, entries[staging]))
    && !(job.name in entries && IsDir(found, entries[job.name]))
  }

  /** The new file has one name, whichever of the two it has reached. */
  lemma MadeAlone(job: Job, found: Disk, disk: Disk, ino: Ino, name: string)
    requires Sane(found) && MadeFile(job, found, disk, ino)
    requires forall n :: n in Entries(disk, job.dir) && Entries(disk, job.dir)[n] == ino <==> n == name
    ensures Alone(disk, ino)
  {
    assert forall dir, n | IsDir(disk, dir) && dir != job.dir && n in Entries(disk, dir) ::
        Entries(disk, dir)[n] != ino by {
      assert forall dir | IsDir(disk, dir) && dir != job.dir ::
          IsDir(found, dir) && Entries(disk, dir) == Entries(found, dir);
    }
    assert (job.dir, name) in NamesOf(disk, ino);
    assert NamesOf(disk, ino) == {(job.dir, name)};
  }
}
