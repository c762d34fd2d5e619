/** When a write goes through, and that what it wrote is what is read. */
module SharedCompletion {
  import opened Outcomes
  import opened Disks
  import opened SharedFiles
  import opened SharedSafety

  lemma RanOnce(job: Job, found: Disk, luck: nat -> Chance, n: nat)
    requires Sane(found) && IsDir(found, job.dir)
    ensures Fits(job, Ran(job, found, luck, n).0, Ran(job, found, luck, n).1)
    ensures Ran(job, found, luck, n + 1)
            == Advance(job, Ran(job, found, luck, n).0, Ran(job, found, luck, n).1, luck(n))
    ensures Reached(job, found, Ran(job, found, luck, n).0, Ran(job, found, luck, n).1)
  {
    hide Advance, Reached, Bounded;
    RanReaches(job, found, luck, n);
  }

  /** The staging name is freed and the file created, unless a directory stands there or the name
      is longer than one may be. */
  lemma StagingTaken(job: Job, found: Disk, luck: nat -> Chance)
    requires Sane(found) && IsDir(found, job.dir) && Kind(luck)
    ensures var entries, staging := Entries(found, job.dir), StagingOf(job.name);
            if |staging| > LONGEST_NAME then Ran(job, found, luck, 1) == (found, Refused(Failure(job, NAMETOOLONG)))
            else if staging in entries && IsDir(found, entries[staging]) then
              Ran(job, found, luck, 1) == (found, Refused(Linked(staging)))
            else Ran(job, found, luck, 2).1 == Checking(found.next)
  {
    hide StagingOf, NamesOf, Permitted;
    assert luck(0).fault.None? && luck(1).fault.None?;
    assert Ran(job, found, luck, 0) == (found, Clearing);
    assert Ran(job, found, luck, 1) == Advance(job, found, Clearing, luck(0));
    assert Ran(job, found, luck, 2) == Advance(job, Ran(job, found, luck, 1).0, Ran(job, found, luck, 1).1, luck(1));
  }

  lemma StagedAlone(job: Job, found: Disk, disk: Disk, ino: Ino)
    requires Sane(found) && Staged(job, found, disk, ino)
    ensures Alone(disk, ino)
  {
    hide StagingOf, NamesOf;
    MadeAlone(job, found, disk, ino, StagingOf(job.name));
  }

  lemma Checked(job: Job, found: Disk, luck: nat -> Chance)
    requires Sane(found) && IsDir(found, job.dir) && Kind(luck)
    requires Ran(job, found, luck, 2).1 == Checking(found.next)
    ensures Ran(job, found, luck, 4).1 == Filling(found.next, 0)
  {
    hide StagingOf, NamesOf, Permitted, Alone, Bounded, Ran;
    assert luck(2).fault.None? && luck(3).fault.None?;
    RanOnce(job, found, luck, 2);
    StagedAlone(job, found, Ran(job, found, luck, 2).0, found.next);
    RanOnce(job, found, luck, 3);
  }

  lemma {:induction false} AllFilled(job: Job, found: Disk, luck: nat -> Chance, k: nat, done: nat) returns (n: nat)
    requires Sane(found) && IsDir(found, job.dir) && Kind(luck)
    requires done <= |job.contents|
    requires Ran(job, found, luck, k).1 == Filling(found.next, done)
    ensures Ran(job, found, luck, n).1 == Filling(found.next, |job.contents|)
    decreases |job.contents| - done
  {
    hide Ran, Reached, Bounded, Append;
    if done == |job.contents| {
      n := k;
    } else {
      assert luck(k).fault.None? && luck(k).taken > 0;
      RanOnce(job, found, luck, k);
      n := AllFilled(job, found, luck, k + 1, Ran(job, found, luck, k + 1).1.done);
    }
  }

  /** The rename goes through unless a directory stands at the target. */
  lemma RenameGoes(job: Job, found: Disk, disk: Disk, ino: Ino)
    requires Sane(found) && Staged(job, found, disk, ino)
    requires |StagingOf(job.name)| <= LONGEST_NAME
    ensures Rename(disk, job.dir, StagingOf(job.name), job.name).1.Ok?
            <==> !(job.name in Entries(found, job.dir) && IsDir(found, Entries(found, job.dir)[job.name]))
  {
    NameIsNotStaging(job.name);
    assert |job.name| <= |StagingOf(job.name)|;
    hide StagingOf;
    assert job.name in Entries(found, job.dir) ==> Entries(found, job.dir)[job.name] in found.nodes;
  }

  lemma Ended(job: Job, found: Disk, luck: nat -> Chance, k: nat)
    requires Sane(found) && IsDir(found, job.dir) && Kind(luck)
    requires Ran(job, found, luck, k).1 == Filling(found.next, |job.contents|)
    requires |StagingOf(job.name)| <= LONGEST_NAME
    ensures Over(Ran(job, found, luck, k + 3).1)
    ensures Ran(job, found, luck, k + 3).1.Finished?
            <==> !(job.name in Entries(found, job.dir) && IsDir(found, Entries(found, job.dir)[job.name]))
  {
    hide Ran, StagingOf, NamesOf, Permitted, Flush, Rename, Unlink, Bounded, Whole, MadeFile, Staged;
    assert luck(k).fault.None? && luck(k + 1).fault.None? && luck(k + 2).fault.None?;
    RanOnce(job, found, luck, k);
    RanOnce(job, found, luck, k + 1);
    RenameGoes(job, found, Ran(job, found, luck, k + 1).0, found.next);
    RanOnce(job, found, luck, k + 2);
  }

  /** Where no step fails the write ends, and goes through exactly where nothing obstructs it: a
      stale staging name, whatever it is, blocks it only by being a directory. */
  lemma QuietWriteFinishes(job: Job, found: Disk, luck: nat -> Chance) returns (n: nat)
    requires Sane(found) && IsDir(found, job.dir) && Kind(luck)
    ensures Over(Ran(job, found, luck, n).1)
    ensures Ran(job, found, luck, n).1.Finished? <==> Unobstructed(job, found)
  {
    hide Ran, StagingOf, Kind, Sane;
    var staging, entries := StagingOf(job.name), Entries(found, job.dir);
    StagingTaken(job, found, luck);
    if |staging| > LONGEST_NAME || (staging in entries && IsDir(found, entries[staging])) {
      n := 1;
    } else {
      Checked(job, found, luck);
      var k := AllFilled(job, found, luck, 4, 0);
      Ended(job, found, luck, k);
      n := k + 3;
    }
  }

  /** A target's name leaves room for its staging name exactly up to nine bytes short of the
      longest; a name past that is a target's all the same. */
  lemma StagingNameFits(name: string)
    ensures |StagingOf(name)| <= LONGEST_NAME <==> |name| <= 246
  {
  }

  /** Names of every length past that are accepted as targets. */
  lemma LongNameAccepted(n: nat)
    requires 246 < n <= 255
    ensures exists name :: |name| == n && SharedName(name) == Ok(name) && |StagingOf(name)| > LONGEST_NAME
  {
    var name := seq(n, _ => 'a');
    assert name[n - 1] == 'a';
    assert name[|name| - |STAGING|..][|STAGING| - 1] == 'a' && STAGING[|STAGING| - 1] == 'g';
    StagingNameFits(name);
    assert |name| == n && SharedName(name) == Ok(name);
  }

  /** So a write to one of those never goes through, whatever chance does, and changes nothing. */
  lemma {:induction false} LongNamesNeverWritten(job: Job, found: Disk, luck: nat -> Chance, n: nat)
    requires Sane(found) && IsDir(found, job.dir)
    requires |job.name| > 246
    ensures Ran(job, found, luck, n).0 == found
    ensures var w := Ran(job, found, luck, n).1; w.Clearing? || w.Creating? || w.Refused?
  {
    StagingNameFits(job.name);
    hide StagingOf, NamesOf;
    if n > 0 {
      LongNamesNeverWritten(job, found, luck, n - 1);
    }
  }

  // -------------------------------------------------------- after a stop

  /** What any step leaves: everything but the written directory as it was, at most one file more,
      and in that directory the names there were, but for the new file's and those of no directory. */
  ghost predicate Tidy(job: Job, found: Disk, disk: Disk) {
    && OthersKept(job, found, disk)
    && disk.nodes.Keys <= found.nodes.Keys + {found.next}
    && (found.next in disk.nodes ==> disk.nodes[found.next].File?)
    && (forall n | n in Entries(disk, job.dir) ::
          || (n in Entries(found, job.dir) && Entries(disk, job.dir)[n] == Entries(found, job.dir)[n])
          || (Entries(disk, job.dir)[n] == found.next && found.next in disk.nodes))
    && (forall n | n in Entries(found, job.dir) ::
          NoDirectory(job, found, n)
          || (n in Entries(disk, job.dir) && Entries(disk, job.dir)[n] == Entries(found, job.dir)[n]))
  }

  lemma ReachedTidy(job: Job, found: Disk, disk: Disk, w: Writer)
    requires Sane(found) && IsDir(found, job.dir)
    requires Reached(job, found, disk, w)
    ensures Tidy(job, found, disk)
  {
    NameIsNotStaging(job.name);
    NextUnused(found);
    hide StagingOf, Whole, Bounded;
    if w.Refused? {
      RefusedTidy(job, found, disk);
    }
  }

  lemma RefusedTidy(job: Job, found: Disk, disk: Disk)
    requires Sane(found) && IsDir(found, job.dir)
    requires Left(job, found, disk)
    ensures Tidy(job, found, disk)
  {
    hide StagingOf, Bounded;
  }

  lemma TidySane(job: Job, found: Disk, disk: Disk)
    requires Sane(found) && Tidy(job, found, disk) && Bounded(disk)
    ensures Sane(disk)
  {
    hide Bounded;
    assert found.next !in found.nodes by {
      NextUnused(found);
    }
    forall dir, n | IsDir(disk, dir) && n in Entries(disk, dir)
      ensures Entries(disk, dir)[n] in disk.nodes && Entries(disk, dir)[n] != dir
    {
      if dir != job.dir {
        assert dir in found.nodes && disk.nodes[dir] == found.nodes[dir];
        assert IsDir(found, dir) && n in Entries(found, dir);
      }
    }
  }

  lemma NextUnused(found: Disk)
    requires Sane(found)
    ensures found.next !in found.nodes
  {
  }

  lemma TidyDirectories(job: Job, found: Disk, disk: Disk, n: string)
    requires Sane(found) && Tidy(job, found, disk)
    ensures NoDirectory(job, disk, n) <==> NoDirectory(job, found, n)
  {
    hide Bounded;
    NextUnused(found);
  }

  /** A write stopped after any step leaves a disk as sound as it found. */
  lemma RanSane(job: Job, found: Disk, luck: nat -> Chance, n: nat)
    requires Sane(found) && IsDir(found, job.dir)
    ensures Sane(Ran(job, found, luck, n).0)
  {
    hide Ran, Reached, Tidy;
    RanOnce(job, found, luck, n);
    ReachedTidy(job, found, Ran(job, found, luck, n).0, Ran(job, found, luck, n).1);
    TidySane(job, found, Ran(job, found, luck, n).0);
  }

  /** Nor does it put a directory anywhere, or take one away: what stands in the way of any write in
      that directory is what stood in its way before. */
  lemma StopNeverObstructs(job: Job, found: Disk, luck: nat -> Chance, n: nat, next: Job)
    requires Sane(found) && IsDir(found, job.dir) && next.dir == job.dir
    ensures IsDir(Ran(job, found, luck, n).0, next.dir)
    ensures Unobstructed(next, Ran(job, found, luck, n).0) <==> Unobstructed(next, found)
  {
    hide Ran, Reached, Tidy, Bounded;
    RanOnce(job, found, luck, n);
    var disk := Ran(job, found, luck, n).0;
    ReachedTidy(job, found, disk, Ran(job, found, luck, n).1);
    TidyDirectories(job, found, disk, StagingOf(next.name));
    TidyDirectories(job, found, disk, next.name);
  }

  /** A write that follows one stopped after any step, itself met by no failure, goes through exactly
      where it would have gone through before: whatever the stopped one left is no obstacle. */
  lemma NextWriteFinishes(job: Job, found: Disk, luck: nat -> Chance, n: nat, next: Job, kind: nat -> Chance)
    returns (k: nat)
    requires Sane(found) && IsDir(found, job.dir) && next.dir == job.dir && Kind(kind)
    ensures IsDir(Ran(job, found, luck, n).0, next.dir) && Bounded(Ran(job, found, luck, n).0)
    ensures Over(Ran(next, Ran(job, found, luck, n).0, kind, k).1)
    ensures Ran(next, Ran(job, found, luck, n).0, kind, k).1.Finished? <==> Unobstructed(next, found)
  {
    hide Ran, Unobstructed, Kind;
    RanSane(job, found, luck, n);
    StopNeverObstructs(job, found, luck, n, next);
    k := QuietWriteFinishes(next, Ran(job, found, luck, n).0, kind);
  }

  // ------------------------------------------------------------- reading

  /** What was written is what is read, where it is no larger than what is read; and one that is
      larger is refused as that. */
  lemma ReadWhatWasWritten(job: Job, found: Disk, luck: nat -> Chance, n: nat)
    requires Sane(found) && IsDir(found, job.dir)
    requires Ran(job, found, luck, n).1.Finished?
    ensures var disk := Ran(job, found, luck, n).0;
            && IsDir(disk, job.dir)
            && ReadOf(disk, job.dir, job.name)
                 == if |job.contents| <= 4194304 then Ok(Some(job.contents)) else Err(Large(job.name))
  {
    hide Ran, StagingOf, NamesOf, Permitted, Alone;
    RanReaches(job, found, luck, n);
    var (disk, w) := Ran(job, found, luck, n);
    PlacedAlone(job, found, disk, w.ino);
  }

  lemma PlacedAlone(job: Job, found: Disk, disk: Disk, ino: Ino)
    requires Sane(found) && Placed(job, found, disk, ino)
    ensures Alone(disk, ino)
  {
    hide StagingOf, NamesOf, Whole;
    forall n
      ensures n in Entries(disk, job.dir) && Entries(disk, job.dir)[n] == ino <==> n == job.name
    {
      assert n in Entries(found, job.dir) ==> Entries(found, job.dir)[n] in found.nodes;
    }
    MadeAlone(job, found, disk, ino, job.name);
  }
}
