/** A write with another process at work on the same disk between any two of its steps. */
module SharedRuns {
  import opened Outcomes
  import opened Disks
  import opened SharedFiles

  /** The writer's own step, with what chance did to it; or anything at all another process did. */
  datatype Event = Own(chance: Chance) | Other(disk: Disk)

  /** Another process may link, unlink, create, rename, write and change modes as it likes. Inodes
      are not taken back into use, and the directory held open stays one. */
  ghost predicate Allowed(job: Job, before: Disk, after: Disk) {
    && before.nodes.Keys <= after.nodes.Keys && before.next <= after.next
    && Bounded(after) && IsDir(after, job.dir)
  }

  ghost predicate Possible(job: Job, found: Disk, events: seq<Event>)
    decreases |events|, 0
  {
    if events == [] then Bounded(found) && IsDir(found, job.dir)
    else
      var before := events[..|events| - 1];
      && Possible(job, found, before)
      && (events[|events| - 1].Other? ==> Allowed(job, At(job, found, before).0, events[|events| - 1].disk))
  }

  /** The disk and the writer after `events`. */
  ghost function At(job: Job, found: Disk, events: seq<Event>): (r: (Disk, Writer))
    requires Possible(job, found, events)
    ensures Fits(job, r.0, r.1)
    decreases |events|, 1
  {
    if events == [] then (found, Clearing)
    else
      var (disk, w) := At(job, found, events[..|events| - 1]);
      match events[|events| - 1]
      case Own(chance) => AdvanceFits(job, disk, w, chance); Advance(job, disk, w, chance)
      case Other(after) => (after, w)
  }

  /** The inode the write's own exclusive create made, once it has. */
  function Made(w: Writer): Option<Ino> {
    match w
    case Clearing => None
    case Creating => None
    case Refused(_) => None
    case Checking(ino) => Some(ino)
    case Moding(ino) => Some(ino)
    case Filling(ino, _) => Some(ino)
    case Moving(ino) => Some(ino)
    case Settling(ino) => Some(ino)
    case Finished(ino) => Some(ino)
    case Cleaning(ino, _) => Some(ino)
  }

  /** What one step may touch: the names of its own directory that are the target's or its staging
      one, and of everything already stored, only `own`. */
  ghost predicate TouchesOnly(job: Job, before: Disk, after: Disk, own: Option<Ino>) {
    && IsDir(before, job.dir) && IsDir(after, job.dir)
    && (forall ino | ino in before.nodes && ino != job.dir && Some(ino) != own ::
          ino in after.nodes && after.nodes[ino] == before.nodes[ino])
    && (forall name | name != job.name && name != StagingOf(job.name) ::
          && (name in Entries(after, job.dir) <==> name in Entries(before, job.dir))
          && (name in Entries(after, job.dir) ==> Entries(after, job.dir)[name] == Entries(before, job.dir)[name]))
  }

  /** One step of the write, on whatever disk it finds. */
  lemma StepTouchesOnly(job: Job, disk: Disk, w: Writer, chance: Chance)
    requires Fits(job, disk, w)
    ensures TouchesOnly(job, disk, Advance(job, disk, w, chance).0, Made(w))
  {
    hide NamesOf, StagingOf, Permitted;
  }

  /** The only inode a write ever makes is the next one never used, at its exclusive create. */
  lemma StepMakes(job: Job, disk: Disk, w: Writer, chance: Chance)
    requires Fits(job, disk, w)
    ensures var now := Made(Advance(job, disk, w, chance).1);
            now.Some? ==> if w.Creating? then now == Some(disk.next) && disk.next !in disk.nodes else now == Made(w)
    ensures disk.next <= Advance(job, disk, w, chance).0.next
  {
    hide NamesOf, StagingOf, Permitted;
  }

  lemma {:induction false} FoundBounded(job: Job, found: Disk, events: seq<Event>)
    requires Possible(job, found, events)
    ensures Bounded(found) && IsDir(found, job.dir)
  {
    if events != [] {
      FoundBounded(job, found, events[..|events| - 1]);
    }
  }

  /** What the create made was in no disk before it, and so was not there when the write began. */
  lemma {:induction false} MadeIsNew(job: Job, found: Disk, events: seq<Event>)
    requires Possible(job, found, events)
    ensures found.next <= At(job, found, events).0.next
    ensures var made := Made(At(job, found, events).1);
            made.Some? ==> made.value >= found.next && made.value !in found.nodes
  {
    if events != [] {
      var before := events[..|events| - 1];
      MadeIsNew(job, found, before);
      FoundBounded(job, found, events);
      if events[|events| - 1].Own? {
        hide Advance, StagingOf;
        StepMakes(job, At(job, found, before).0, At(job, found, before).1, events[|events| - 1].chance);
      }
    }
  }

  /** In every interleaving: a step of the write changes the bytes or the mode of no inode but the
      one its own create made, which was not there when the write began, and no name but two. */
  lemma WriterTouchesOnlyItsOwn(job: Job, found: Disk, events: seq<Event>)
    requires Possible(job, found, events) && events != [] && events[|events| - 1].Own?
    ensures var before := events[..|events| - 1];
            var own := Made(At(job, found, before).1);
            && TouchesOnly(job, At(job, found, before).0, At(job, found, events).0, own)
            && (own.Some? ==> own.value !in found.nodes)
  {
    hide Advance, TouchesOnly;
    var before := events[..|events| - 1];
    MadeIsNew(job, found, before);
    StepTouchesOnly(job, At(job, found, before).0, At(job, found, before).1, events[|events| - 1].chance);
  }

  /** Whether no event of another process changed what `ino` is. */
  ghost predicate LeftAlone(job: Job, found: Disk, events: seq<Event>, ino: Ino)
    requires Possible(job, found, events)
    decreases |events|
  {
    events == []
    || (LeftAlone(job, found, events[..|events| - 1], ino)
        && (events[|events| - 1].Other? ==>
              ino in At(job, found, events[..|events| - 1]).0.nodes ==>
                events[|events| - 1].disk.nodes[ino] == At(job, found, events[..|events| - 1]).0.nodes[ino]))
  }

  /** So whatever stood there before the write, and nobody else changed, is as it was: a file
      linked in, a link planted at a name, or what a link leads to. */
  lemma {:induction false} WhatStoodIsKept(job: Job, found: Disk, events: seq<Event>, ino: Ino)
    requires Possible(job, found, events)
    requires ino in found.nodes && ino != job.dir
    requires LeftAlone(job, found, events, ino)
    ensures ino in At(job, found, events).0.nodes && At(job, found, events).0.nodes[ino] == found.nodes[ino]
  {
    if events != [] {
      hide Advance;
      var before := events[..|events| - 1];
      WhatStoodIsKept(job, found, before, ino);
      if events[|events| - 1].Own? {
        WriterTouchesOnlyItsOwn(job, found, events);
      }
    }
  }

  /** Whether the file made has been checked. */
  predicate PastCheck(w: Writer) {
    w.Moding? || w.Filling? || w.Moving? || w.Settling? || w.Finished?
  }

  /** No byte goes into a file that was not seen through its handle, at some moment of the run, to be
      plain and to have no other name. */
  lemma {:induction false} SeenAlone(job: Job, found: Disk, events: seq<Event>) returns (k: nat)
    requires Possible(job, found, events)
    requires PastCheck(At(job, found, events).1)
    ensures k < |events| && Possible(job, found, events[..k])
    ensures Alone(At(job, found, events[..k]).0, At(job, found, events).1.ino)
  {
    var before, w := events[..|events| - 1], At(job, found, events[..|events| - 1]).1;
    PastCheckStep(job, At(job, found, before).0, w, events[|events| - 1]);
    hide Advance, Alone;
    if PastCheck(w) {
      k := SeenAlone(job, found, before);
      assert events[..k] == before[..k];
    } else {
      k := |events| - 1;
    }
  }

  lemma PastCheckStep(job: Job, disk: Disk, w: Writer, event: Event)
    requires Fits(job, disk, w)
    ensures event.Own? ==>
              var now := Advance(job, disk, w, event.chance).1;
              PastCheck(now) ==>
                if PastCheck(w) then now.ino == w.ino else w.Checking? && now.ino == w.ino && Alone(disk, now.ino)
  {
    hide Alone, Append, Chmod, Flush, Rename, Unlink, Create;
  }

  // ------------------------------------------------- what reaches the target

  /** What the staging name stands for. */
  function StagedAs(job: Job, disk: Disk): Option<Ino> {
    Within(disk, job.dir, StagingOf(job.name))
  }

  /** A rename moves whatever the staging name then stands for, so the target ends as the file the
      write made exactly where that name still stood for it. */
  lemma MovesWhatIsStaged(job: Job, found: Disk, events: seq<Event>)
    requires Possible(job, found, events) && events != [] && events[|events| - 1].Own?
    requires At(job, found, events[..|events| - 1]).1.Moving? && At(job, found, events).1.Settling?
    ensures var before, after := At(job, found, events[..|events| - 1]).0, At(job, found, events).0;
            && StagedAs(job, before).Some?
            && Within(after, job.dir, job.name) == StagedAs(job, before)
  {
    hide StagingOf;
  }

  /** Whether nobody else changed what the staging name stands for since the write created it. */
  ghost predicate StagingLeftAlone(job: Job, found: Disk, events: seq<Event>)
    requires Possible(job, found, events)
    decreases |events|
  {
    events == []
    || Made(At(job, found, events).1).None?
    || (var before := events[..|events| - 1];
        && StagingLeftAlone(job, found, before)
        && (events[|events| - 1].Other? ==>
              StagedAs(job, events[|events| - 1].disk) == StagedAs(job, At(job, found, before).0)))
  }

  /** Whether a write has made its file and not yet moved it. */
  predicate Unmoved(w: Writer) {
    w.Checking? || w.Moding? || w.Filling? || w.Moving?
  }

  lemma StagedStep(job: Job, disk: Disk, w: Writer, chance: Chance)
    requires Fits(job, disk, w)
    ensures var (after, now) := Advance(job, disk, w, chance);
            Unmoved(now) ==>
              if w.Creating? then StagedAs(job, after) == Some(now.ino)
              else Unmoved(w) && now.ino == w.ino && StagedAs(job, after) == StagedAs(job, disk)
  {
    hide StagingOf, NamesOf, Permitted;
  }

  /** Then it goes on standing for the file the write made until that is moved. */
  lemma {:induction false} StagedIsMade(job: Job, found: Disk, events: seq<Event>)
    requires Possible(job, found, events)
    requires Unmoved(At(job, found, events).1)
    requires StagingLeftAlone(job, found, events)
    ensures StagedAs(job, At(job, found, events).0) == Some(At(job, found, events).1.ino)
  {
    var before := events[..|events| - 1];
    var (disk, w) := At(job, found, before);
    if events[|events| - 1].Own? {
      StagedStep(job, disk, w, events[|events| - 1].chance);
      hide Advance, StagedAs;
      if !w.Creating? {
        StagedIsMade(job, found, before);
      }
    } else {
      hide Advance, StagedAs;
      StagedIsMade(job, found, before);
    }
  }

  /** So where nobody else changed what the staging name stood for, the target ends as the very file
      the write made. */
  lemma TargetIsMade(job: Job, found: Disk, events: seq<Event>)
    requires Possible(job, found, events) && events != [] && events[|events| - 1].Own?
    requires At(job, found, events[..|events| - 1]).1.Moving? && At(job, found, events).1.Settling?
    requires StagingLeftAlone(job, found, events[..|events| - 1])
    ensures Within(At(job, found, events).0, job.dir, job.name) == Some(At(job, found, events).1.ino)
  {
    hide Advance, StagedAs;
    MovesWhatIsStaged(job, found, events);
    StagedIsMade(job, found, events[..|events| - 1]);
    MovingKeepsIno(job, At(job, found, events[..|events| - 1]).0, At(job, found, events[..|events| - 1]).1,
                   events[|events| - 1]);
  }

  lemma MovingKeepsIno(job: Job, disk: Disk, w: Writer, event: Event)
    requires Fits(job, disk, w) && w.Moving? && event.Own?
    ensures var now := Advance(job, disk, w, event.chance).1; now.Settling? ==> now.ino == w.ino
  {
  }

  /** And otherwise it may not: whenever a write is about to move its file, a link put at the staging
      name in its place is what reaches the target, and the write goes on as if it were its own. */
  lemma PlantedLinkLands(job: Job, found: Disk, events: seq<Event>, to: string) returns (more: seq<Event>)
    requires Possible(job, found, events)
    requires At(job, found, events).1.Moving?
    requires var disk := At(job, found, events).0; Within(disk, job.dir, job.name).Some? ==>
               Within(disk, job.dir, job.name).value in disk.nodes
               && !IsDir(disk, Within(disk, job.dir, job.name).value)
    ensures Possible(job, found, events + more)
    ensures var (disk, w) := At(job, found, events + more);
            && w == Settling(At(job, found, events).1.ino)
            && Within(disk, job.dir, job.name).Some?
            && var ino := Within(disk, job.dir, job.name).value;
               ino != w.ino && ino in disk.nodes && disk.nodes[ino] == Link(to)
  {
    var (disk, w) := At(job, found, events);
    MadeBelowNext(job, found, events);
    var planted := Planted(job, disk, to);
    var own := Own(Chance(None, 1));
    more := [Other(planted), own];
    assert (events + more)[..|events| + 1] == events + [Other(planted)];
    assert (events + [Other(planted)])[..|events|] == events;
    assert Possible(job, found, events + [Other(planted)]);
    assert At(job, found, events + [Other(planted)]) == (planted, w);
    assert Possible(job, found, events + more);
    assert At(job, found, events + more) == Advance(job, planted, w, Chance(None, 1));
    PlantedMoves(job, disk, w, to);
  }

  /** The disk with a new link standing at the staging name. */
  function Planted(job: Job, disk: Disk, to: string): Disk
    requires IsDir(disk, job.dir)
  {
    var entries := Entries(disk, job.dir)[StagingOf(job.name) := disk.next];
    var placed := WithEntries(disk, job.dir, entries);
    Disk(placed.nodes[disk.next := Link(to)], disk.next + 1)
  }

  lemma PlantedMoves(job: Job, disk: Disk, w: Writer, to: string)
    requires Fits(job, disk, w) && w.Moving?
    requires |StagingOf(job.name)| <= LONGEST_NAME
    requires Within(disk, job.dir, job.name).Some? ==>
               Within(disk, job.dir, job.name).value in disk.nodes
               && !IsDir(disk, Within(disk, job.dir, job.name).value)
    ensures Allowed(job, disk, Planted(job, disk, to)) && Fits(job, Planted(job, disk, to), w)
    ensures var (after, now) := Advance(job, Planted(job, disk, to), w, Chance(None, 1));
            now == Settling(w.ino) && Within(after, job.dir, job.name) == Some(disk.next)
            && disk.next in after.nodes && after.nodes[disk.next] == Link(to)
  {
    assert |job.name| < |StagingOf(job.name)|;
    hide StagingOf;
  }

  lemma {:induction false} MadeBelowNext(job: Job, found: Disk, events: seq<Event>)
    requires Possible(job, found, events)
    ensures var (disk, w) := At(job, found, events);
            Made(w).Some? ==> Made(w).value < disk.next && |StagingOf(job.name)| <= LONGEST_NAME
  {
    if events != [] {
      var before := events[..|events| - 1];
      MadeBelowNext(job, found, before);
      if events[|events| - 1].Own? {
        hide Advance, StagingOf;
        StepMakes(job, At(job, found, before).0, At(job, found, before).1, events[|events| - 1].chance);
        CreateGrows(job, At(job, found, before).0, At(job, found, before).1, events[|events| - 1].chance);
      }
    }
  }

  lemma CreateGrows(job: Job, disk: Disk, w: Writer, chance: Chance)
    requires Fits(job, disk, w)
    ensures w.Creating? && Made(Advance(job, disk, w, chance).1).Some? ==>
              disk.next < Advance(job, disk, w, chance).0.next && |StagingOf(job.name)| <= LONGEST_NAME
  {
  }
}
