/** Shared files: the system calls of a write and of a read, one step at a time, and the methods
    that make those calls in sequence. */
module SharedFiles {
  import opened Outcomes
  import opened Disks
  import Texts

  /** The largest file read. */
  const LARGEST := 4 * 1024 * 1024

  /** The mode a finished write leaves: octal 644. */
  const KEPT: bv32 := 0x1A4

  const STAGING := ".writing"

  /** The refusals and failures of a write or a read; with no cause, the directory is absent. */
  datatype Unshared =
    | Named(name: string)
    | Linked(name: string)
    | Large(name: string)
    | Failed(name: string, why: Option<Errno>)

  // ------------------------------------------------------------- names

  predicate IsSharedName(name: string) {
    && name != ""
    && |name| <= LONGEST_NAME
    && name != "."
    && name != ".."
    && '/' !in name && '\0' !in name
    && !Texts.EndsWith(name, STAGING)
  }

  function SharedName(name: string): Result<string, Unshared> {
    if IsSharedName(name) then Ok(name) else Err(Named(name))
  }

  /** What a file is named while it is written. */
  function StagingOf(name: string): string {
    "." + name + STAGING
  }

  /** Whether a name goes up, stays, or goes down further than one step. */
  predicate Strays(name: string) {
    name == "" || name == "." || name == ".." || exists c :: c in name && (c == '/' || c as int == 0)
  }

  /** A name is a target's exactly where it is one plain name of at most 255 bytes and not that of a
      file being written. */
  lemma TargetMeans(name: string)
    ensures SharedName(name) == (if IsSharedName(name) then Ok(name) else Err(Named(name)))
    ensures IsSharedName(name) <==>
              !Strays(name) && |name| <= 255 && !(exists before :: name == before + ".writing")
    ensures StagingOf(name) == "." + (name + ".writing")
  {
    if Texts.EndsWith(name, STAGING) {
      assert name == name[..|name| - 8] + ".writing";
    }
    if before :| name == before + ".writing" {
      assert name[|before|..] == ".writing";
    }
    assert "." + name + ".writing" == "." + (name + ".writing");
  }

  /** No staging name is a target's, and no two targets share one. */
  lemma StagingApart(name: string, other: string)
    ensures !IsSharedName(StagingOf(name))
    ensures StagingOf(name) == StagingOf(other) ==> name == other
  {
    assert StagingOf(name)[1..|StagingOf(name)| - |STAGING|] == name;
    assert StagingOf(other)[1..|StagingOf(other)| - |STAGING|] == other;
  }

  // ----------------------------------------------------------- directories

  /** A directory opened without following a link. */
  function OpenOne(disk: Disk, stands: Option<Ino>): Result<Ino, Errno> {
    if stands.None? || stands.value !in disk.nodes then Err(NOENT)
    else if disk.nodes[stands.value].Link? then Err(LOOP)
    else if !disk.nodes[stands.value].Dir? then Err(NOTDIR)
    else Ok(stands.value)
  }

  function Refusal(name: string, why: Errno): Unshared {
    if why == LOOP || why == NOTDIR then Linked(name) else Failed(name, Some(why))
  }

  function Within(disk: Disk, dir: Ino, name: string): Option<Ino> {
    if IsDir(disk, dir) && name in Entries(disk, dir) then Some(Entries(disk, dir)[name]) else None
  }

  /** Each directory of `names` opened in turn within the one above it; none where one is absent. */
  function Beneath(disk: Disk, dir: Ino, names: seq<string>): Result<Option<Ino>, Unshared>
    decreases |names|
  {
    if names == [] then Ok(Some(dir))
    else
      match OpenOne(disk, Within(disk, dir, names[0]))
      case Ok(within) => Beneath(disk, within, names[1..])
      case Err(why) => if why == NOENT then Ok(None) else Err(Refusal(names[0], why))
  }

  function Opened(disk: Disk, path: string, stands: Option<Ino>, beneath: seq<string>): Result<Option<Ino>, Unshared> {
    match OpenOne(disk, stands)
    case Err(why) => Err(Refusal(path, why))
    case Ok(dir) => Beneath(disk, dir, beneath)
  }

  /** Whether `names`, each a directory and none a link, lead from `dir` to `to`. */
  ghost predicate Leads(disk: Disk, dir: Ino, names: seq<string>, to: Ino)
    decreases |names|
  {
    if names == [] then dir == to
    else
      var within := Within(disk, dir, names[0]);
      within.Some? && IsDir(disk, within.value) && Leads(disk, within.value, names[1..], to)
  }

  /** What is opened is the directory the names lead to; nothing is said to be there only where
      they lead to a directory that lacks the next; and any other stop is a refusal naming it. */
  lemma {:induction false} BeneathLeads(disk: Disk, dir: Ino, names: seq<string>, to: Ino)
    requires IsDir(disk, dir)
    ensures Beneath(disk, dir, names) == Ok(Some(to)) <==> Leads(disk, dir, names, to)
    ensures Beneath(disk, dir, names) == Ok(Some(to)) ==> IsDir(disk, to)
    ensures Beneath(disk, dir, names) == Ok(None) ==>
              exists k, last :: 0 <= k < |names| && Leads(disk, dir, names[..k], last)
                                && OpenOne(disk, Within(disk, last, names[k])) == Err(NOENT)
    ensures Beneath(disk, dir, names).Err? ==>
              exists k, last :: 0 <= k < |names| && Leads(disk, dir, names[..k], last)
                                && Beneath(disk, dir, names).error == Linked(names[k])
                                && Within(disk, last, names[k]).Some?
                                && !IsDir(disk, Within(disk, last, names[k]).value)
    decreases |names|
  {
    if names != [] {
      var within := Within(disk, dir, names[0]);
      assert Leads(disk, dir, names[..0], dir);
      if OpenOne(disk, within).Ok? {
        BeneathLeads(disk, within.value, names[1..], to);
        forall k, last | 0 <= k < |names| - 1 && Leads(disk, within.value, names[1..][..k], last)
          ensures Leads(disk, dir, names[..k + 1], last) && names[1..][k] == names[k + 1]
        {
          assert names[..k + 1][1..] == names[1..][..k];
        }
      }
    }
  }

  // ------------------------------------------------------- steps of a write

  /** One write: into which directory, under what name, what, and with which mode. */
  datatype Job = Job(dir: Ino, name: string, contents: seq<byte>, mode: bv32, umask: bv32)

  /** Where a write is: before each of its steps, or over. */
  datatype Writer =
    | Clearing
    | Creating
    | Checking(ino: Ino)
    | Moding(ino: Ino)
    | Filling(ino: Ino, done: nat)
    | Moving(ino: Ino)
    | Settling(ino: Ino)
    | Cleaning(ino: Ino, error: Unshared)
    | Finished(ino: Ino)
    | Refused(error: Unshared)

  /** What chance does to one step: fails it, or lets a write take so many bytes. */
  datatype Chance = Chance(fault: Option<Errno>, taken: nat)

  predicate Over(w: Writer) {
    w.Finished? || w.Refused?
  }

  function Permitted(mode: bv32): bv32 {
    mode & KEPT
  }

  /** Whether an inode is a file that stands under exactly one name on the whole disk. */
  predicate Alone(disk: Disk, ino: Ino) {
    ino in disk.nodes && disk.nodes[ino].File? && |NamesOf(disk, ino)| == 1
  }

  function Chanced<T>(fault: Option<Errno>, disk: Disk, r: (Disk, Result<T, Errno>)): (Disk, Result<T, Errno>) {
    if fault.Some? then (disk, Err(fault.value)) else r
  }

  function Failure(job: Job, why: Errno): Unshared {
    Failed(job.name, Some(why))
  }

  function Cleared(job: Job, r: Result<(), Errno>): Writer {
    match r
    case Ok(_) => Creating
    case Err(why) =>
      if why == NOENT then Creating
      else if why == ISDIR || why == PERM then Refused(Linked(StagingOf(job.name)))
      else Refused(Failure(job, why))
  }

  /** One step of filling: the next bytes a write takes, or the flush after the last. */
  function Filled(job: Job, disk: Disk, ino: Ino, done: nat, chance: Chance): (Disk, Writer)
    requires done <= |job.contents|
  {
    if chance.fault.Some? then (disk, Cleaning(ino, Failure(job, chance.fault.value)))
    else if done == |job.contents| then (Flush(disk, ino), Moving(ino))
    else if chance.taken == 0 then (disk, Cleaning(ino, Failure(job, OTHER(0))))
    else
      var end := if chance.taken < |job.contents| - done then done + chance.taken else |job.contents|;
      (Append(disk, ino, job.contents[done..end]), Filling(ino, end))
  }

  ghost predicate Fits(job: Job, disk: Disk, w: Writer) {
    IsDir(disk, job.dir) && Bounded(disk) && (w.Filling? ==> w.done <= |job.contents|)
  }

  /** One step of `written` and `filled`; a write that is over takes none. */
  function Advance(job: Job, disk: Disk, w: Writer, chance: Chance): (Disk, Writer)
    requires Fits(job, disk, w)
  {
    var staging := StagingOf(job.name);
    match w
    case Clearing =>
      var (after, r) := Chanced(chance.fault, disk, Unlink(disk, job.dir, staging));
      (after, Cleared(job, r))
    case Creating =>
      var (after, r) := Chanced(chance.fault, disk, Create(disk, job.dir, staging, Permitted(job.mode) & !job.umask));
      (after, if r.Ok? then Checking(r.value) else Refused(Failure(job, r.error)))
    case Checking(ino) =>
      (disk, if chance.fault.Some? then Cleaning(ino, Failure(job, chance.fault.value))
             else if Alone(disk, ino) then Moding(ino)
             else Cleaning(ino, Linked(job.name)))
    case Moding(ino) =>
      if chance.fault.Some? then (disk, Cleaning(ino, Failure(job, chance.fault.value)))
      else (Chmod(disk, ino, Permitted(job.mode)), Filling(ino, 0))
    case Filling(ino, done) => Filled(job, disk, ino, done, chance)
    case Moving(ino) =>
      var (after, r) := Chanced(chance.fault, disk, Rename(disk, job.dir, staging, job.name));
      (after, if r.Ok? then Settling(ino) else Cleaning(ino, Failure(job, r.error)))
    case Settling(ino) => (disk, Finished(ino))
    case Cleaning(_, error) => (Chanced(chance.fault, disk, Unlink(disk, job.dir, staging)).0, Refused(error))
    case _ => (disk, w)
  }

  lemma AdvanceFits(job: Job, disk: Disk, w: Writer, chance: Chance)
    requires Fits(job, disk, w)
    ensures Fits(job, Advance(job, disk, w, chance).0, Advance(job, disk, w, chance).1)
  {
  }

  /** A write after `n` steps, from the disk it found, with nothing else at work on it. */
  ghost function Ran(job: Job, disk: Disk, luck: nat -> Chance, n: nat): (r: (Disk, Writer))
    requires IsDir(disk, job.dir) && Bounded(disk)
    ensures Fits(job, r.0, r.1)
  {
    if n == 0 then (disk, Clearing)
    else
      var (before, w) := Ran(job, disk, luck, n - 1);
      AdvanceFits(job, before, w, luck(n - 1));
      Advance(job, before, w, luck(n - 1))
  }

  lemma RanFits(job: Job, found: Disk, luck: nat -> Chance, k: nat)
    requires IsDir(found, job.dir) && Bounded(found)
    ensures IsDir(Ran(job, found, luck, k).0, job.dir) && Bounded(Ran(job, found, luck, k).0)
  {
    hide Ran, Bounded;
  }

  lemma FillingStep(job: Job, found: Disk, luck: nat -> Chance, k: nat, disk: Disk, ino: Ino, done: nat)
    requires IsDir(found, job.dir) && Bounded(found)
    requires done <= |job.contents|
    requires Ran(job, found, luck, k) == (disk, Filling(ino, done))
    ensures Ran(job, found, luck, k + 1) == Filled(job, disk, ino, done, luck(k))
  {
    hide Bounded, Filled;
    assert Ran(job, found, luck, k + 1) == Advance(job, disk, Filling(ino, done), luck(k));
  }

  lemma MovingStep(job: Job, found: Disk, luck: nat -> Chance, k: nat, disk: Disk, ino: Ino)
    requires IsDir(found, job.dir) && Bounded(found)
    requires IsDir(disk, job.dir)
    requires Ran(job, found, luck, k) == (disk, Moving(ino))
    ensures var done := Chanced(luck(k).fault, disk, Rename(disk, job.dir, StagingOf(job.name), job.name));
            Ran(job, found, luck, k + 1)
              == (done.0, if done.1.Ok? then Settling(ino) else Cleaning(ino, Failure(job, done.1.error)))
  {
    hide Rename, Bounded, Chanced;
    var r := Advance(job, disk, Moving(ino), luck(k));
    assert Ran(job, found, luck, k + 1) == r;
  }

  /** What ends a write that moved its file, or that failed after creating one. */
  lemma LastStep(job: Job, found: Disk, luck: nat -> Chance, k: nat)
    requires IsDir(found, job.dir) && Bounded(found)
    ensures var (disk, w) := Ran(job, found, luck, k);
            && IsDir(disk, job.dir)
            && (w.Settling? ==> Ran(job, found, luck, k + 1) == (disk, Finished(w.ino)))
            && (w.Cleaning? ==>
                  Ran(job, found, luck, k + 1)
                    == (Chanced(luck(k).fault, disk, Unlink(disk, job.dir, StagingOf(job.name))).0, Refused(w.error)))
  {
    hide Unlink, Bounded, Chanced;
    var (disk, w) := Ran(job, found, luck, k);
    assert Ran(job, found, luck, k + 1) == Advance(job, disk, w, luck(k));
  }

  function Came(w: Writer): Result<(), Unshared>
    requires Over(w)
  {
    match w
    case Finished(_) => Ok(())
    case Refused(error) => Err(error)
  }

  // ------------------------------------------------------------- reading

  /** The answer to a read of `name` in `dir` on a disk at rest: absent, refused, or all the bytes. */
  function ReadOf(disk: Disk, dir: Ino, name: string): Result<Option<seq<byte>>, Unshared>
    requires IsDir(disk, dir)
  {
    if name !in Entries(disk, dir) then Ok(None)
    else
      var ino := Entries(disk, dir)[name];
      if !Alone(disk, ino) then Err(Linked(name))
      else if |disk.nodes[ino].bytes| > LARGEST then Err(Large(name))
      else Ok(Some(disk.nodes[ino].bytes))
  }

  /** Where a read is: before its first look at the name, before opening it, before its second look
      through the handle, before taking the bytes, or over. */
  datatype Reader =
    | Looking
    | Opening
    | LookingAgain(ino: Ino)
    | Taking(ino: Ino)
    | Answered(answer: Result<Option<seq<byte>>, Unshared>)

  /** What a name stands for, nothing followed. */
  function Seen(disk: Disk, dir: Ino, name: string, fault: Option<Errno>): Result<Ino, Errno> {
    if fault.Some? then Err(fault.value)
    else
      match Within(disk, dir, name)
      case None => Err(NOENT)
      case Some(ino) => Ok(ino)
  }

  /** A name opened to be read: anything but a link is. */
  function OpenedToRead(disk: Disk, dir: Ino, name: string, fault: Option<Errno>): Result<Ino, Errno> {
    match Seen(disk, dir, name, fault)
    case Err(why) => Err(why)
    case Ok(ino) => if ino in disk.nodes && disk.nodes[ino].Link? then Err(LOOP) else Ok(ino)
  }

  function BytesOf(disk: Disk, ino: Ino): seq<byte> {
    if ino in disk.nodes && disk.nodes[ino].File? then disk.nodes[ino].bytes else []
  }

  /** One step of `read`; a read that is over takes none. */
  function ReadStep(disk: Disk, dir: Ino, name: string, reader: Reader, fault: Option<Errno>): Reader {
    match reader
    case Looking =>
      (match Seen(disk, dir, name, fault)
       case Ok(ino) => if Alone(disk, ino) then Opening else Answered(Err(Linked(name)))
       case Err(why) => Answered(if why == NOENT then Ok(None) else Err(Failed(name, Some(why)))))
    case Opening =>
      (match OpenedToRead(disk, dir, name, fault)
       case Ok(ino) => LookingAgain(ino)
       case Err(why) => Answered(Err(Failed(name, Some(why)))))
    case LookingAgain(ino) =>
      if fault.Some? then Answered(Err(Failed(name, fault)))
      else if Alone(disk, ino) then Taking(ino)
      else Answered(Err(Linked(name)))
    case Taking(ino) =>
      if fault.Some? then Answered(Err(Failed(name, fault)))
      else if |BytesOf(disk, ino)| > LARGEST then Answered(Err(Large(name)))
      else Answered(Ok(Some(BytesOf(disk, ino))))
    case Answered(_) => reader
  }

  /** A read after `n` steps, of a disk nothing else is at work on. */
  function ReadRan(disk: Disk, dir: Ino, name: string, luck: nat -> Option<Errno>, n: nat): Reader {
    if n == 0 then Looking else ReadStep(disk, dir, name, ReadRan(disk, dir, name, luck, n - 1), luck(n - 1))
  }

  // --------------------------------------------------------- the file system

  /** The disk the adapter's steps change, one call at a time. */
  class FileSystem {
    var disk: Disk

    constructor (given: Disk)
      ensures disk == given
    {
      disk := given;
    }

    /** `opened`: a loop that replaces the directory by the one within it. */
    method Open(path: string, stands: Option<Ino>, beneath: seq<string>) returns (r: Result<Option<Ino>, Unshared>)
      ensures r == Opened(disk, path, stands, beneath)
      ensures r.Ok? && r.value.Some? ==> IsDir(disk, r.value.value)
    {
      var first := OpenOne(disk, stands);
      if first.Err? {
        return Err(Refusal(path, first.error));
      }
      var directory := first.value;
      for i := 0 to |beneath|
        invariant IsDir(disk, directory)
        invariant Opened(disk, path, stands, beneath) == Beneath(disk, directory, beneath[i..])
      {
        var within := OpenOne(disk, Within(disk, directory, beneath[i]));
        assert beneath[i..][1..] == beneath[i + 1..];
        if within.Err? {
          return if within.error == NOENT then Ok(None) else Err(Refusal(beneath[i], within.error));
        }
        directory := within.value;
      }
      r := Ok(Some(directory));
    }

    method UnlinkAt(dir: Ino, name: string, fault: Option<Errno>) returns (r: Result<(), Errno>)
      requires IsDir(disk, dir)
      modifies this
      ensures (disk, r) == Chanced(fault, old(disk), Unlink(old(disk), dir, name))
    {
      var done := Chanced(fault, disk, Unlink(disk, dir, name));
      disk, r := done.0, done.1;
    }

    method CreateAt(dir: Ino, name: string, mode: bv32, fault: Option<Errno>) returns (r: Result<Ino, Errno>)
      requires IsDir(disk, dir)
      modifies this
      ensures (disk, r) == Chanced(fault, old(disk), Create(old(disk), dir, name, mode))
    {
      var done := Chanced(fault, disk, Create(disk, dir, name, mode));
      disk, r := done.0, done.1;
    }

    method RenameAt(dir: Ino, name: string, over: string, fault: Option<Errno>) returns (r: Result<(), Errno>)
      requires IsDir(disk, dir)
      modifies this
      ensures (disk, r) == Chanced(fault, old(disk), Rename(old(disk), dir, name, over))
    {
      var done := Chanced(fault, disk, Rename(disk, dir, name, over));
      disk, r := done.0, done.1;
    }

    /** `filled`: checks the file just created, sets its mode, writes all of it and flushes it. */
    method Fill(job: Job, ino: Ino, luck: nat -> Chance, ghost found: Disk) returns (r: Result<(), Unshared>, k: nat)
      requires IsDir(found, job.dir) && Bounded(found)
      requires Ran(job, found, luck, 2) == (disk, Checking(ino))
      modifies this
      ensures Ran(job, found, luck, k) == (disk, if r.Ok? then Moving(ino) else Cleaning(ino, r.error))
    {
      hide Chmod, Append, Flush, Alone, Unlink, Create, Rename, Bounded;
      k := 3;
      if luck(2).fault.Some? {
        return Err(Failure(job, luck(2).fault.value)), k;
      }
      if !Alone(disk, ino) {
        return Err(Linked(job.name)), k;
      }
      k := 4;
      if luck(3).fault.Some? {
        return Err(Failure(job, luck(3).fault.value)), k;
      }
      disk := Chmod(disk, ino, Permitted(job.mode));
      r, k := WriteAll(job, ino, luck, found);
      if r.Err? {
        return;
      }
      k := k + 1;
      if luck(k - 1).fault.Some? {
        return Err(Failure(job, luck(k - 1).fault.value)), k;
      }
      disk := Flush(disk, ino);
    }

    /** `write_all`: one write after another until all is taken; a write that takes nothing fails. */
    method WriteAll(job: Job, ino: Ino, luck: nat -> Chance, ghost found: Disk)
      returns (r: Result<(), Unshared>, k: nat)
      requires IsDir(found, job.dir) && Bounded(found)
      requires Ran(job, found, luck, 4) == (disk, Filling(ino, 0))
      modifies this
      ensures Ran(job, found, luck, k)
              == (disk, if r.Ok? then Filling(ino, |job.contents|) else Cleaning(ino, r.error))
    {
      hide Append, Flush, Ran, Bounded;
      var done := 0;
      k := 4;
      while done < |job.contents|
        invariant done <= |job.contents|
        invariant Ran(job, found, luck, k) == (disk, Filling(ino, done))
        decreases |job.contents| - done
      {
        FillingStep(job, found, luck, k, disk, ino, done);
        var chance := luck(k);
        k := k + 1;
        if chance.fault.Some? {
          return Err(Failure(job, chance.fault.value)), k;
        }
        if chance.taken == 0 {
          return Err(Failure(job, OTHER(0))), k;
        }
        var end := if chance.taken < |job.contents| - done then done + chance.taken else |job.contents|;
        disk := Append(disk, ino, job.contents[done..end]);
        done := end;
      }
      r := Ok(());
    }

    /** `written` in a directory already opened, and how many steps it took. */
    method Write(job: Job, luck: nat -> Chance) returns (r: Result<(), Unshared>, k: nat)
      requires IsDir(disk, job.dir) && Bounded(disk)
      modifies this
      ensures Ran(job, old(disk), luck, k).0 == disk
      ensures Over(Ran(job, old(disk), luck, k).1) && r == Came(Ran(job, old(disk), luck, k).1)
    {
      hide Unlink, Create, Rename, Bounded, Chmod, Append, Flush, Alone;
      ghost var found := disk;
      var staging := StagingOf(job.name);
      k := 1;
      assert Ran(job, found, luck, 0) == (found, Clearing);
      assert Ran(job, found, luck, 1) == Advance(job, found, Clearing, luck(0));
      var cleared := UnlinkAt(job.dir, staging, luck(0).fault);
      if cleared.Err? && cleared.error != NOENT {
        return Err(if cleared.error == ISDIR || cleared.error == PERM then Linked(staging)
                   else Failure(job, cleared.error)), k;
      }
      k := 2;
      assert Ran(job, found, luck, 1) == (disk, Creating);
      assert Ran(job, found, luck, 2) == Advance(job, disk, Creating, luck(1));
      var created := CreateAt(job.dir, staging, Permitted(job.mode) & !job.umask, luck(1).fault);
      if created.Err? {
        return Err(Failure(job, created.error)), k;
      }
      r, k := Move(job, created.value, luck, found);
    }

    /** The rest of `written`: fills what was created and renames it over its target, or on any
        failure removes it; then flushes the directory, whatever comes of that. */
    method Move(job: Job, ino: Ino, luck: nat -> Chance, ghost found: Disk) returns (r: Result<(), Unshared>, k: nat)
      requires IsDir(found, job.dir) && Bounded(found)
      requires Ran(job, found, luck, 2) == (disk, Checking(ino))
      modifies this
      ensures Ran(job, found, luck, k).0 == disk
      ensures Over(Ran(job, found, luck, k).1) && r == Came(Ran(job, found, luck, k).1)
    {
      hide Ran, Unlink, Rename, Bounded, Chanced;
      var staging := StagingOf(job.name);
      r, k := Fill(job, ino, luck, found);
      RanFits(job, found, luck, k);
      if r.Ok? {
        MovingStep(job, found, luck, k, disk, ino);
        var renamed := RenameAt(job.dir, staging, job.name, luck(k).fault);
        k := k + 1;
        r := if renamed.Ok? then Ok(()) else Err(Failure(job, renamed.error));
        RanFits(job, found, luck, k);
      }
      LastStep(job, found, luck, k);
      if r.Err? {
        var _ := UnlinkAt(job.dir, staging, luck(k).fault);
      }
      k := k + 1;
    }

    /** `written`: the directory opened, and the write in it; an absent one is a failure. */
    method Written(path: string, stands: Option<Ino>, beneath: seq<string>, name: string, contents: seq<byte>,
                   mode: bv32, umask: bv32, luck: nat -> Chance) returns (r: Result<(), Unshared>, k: nat)
      requires Bounded(disk)
      modifies this
      ensures var at := Opened(old(disk), path, stands, beneath);
              if at.Err? then r == Err(at.error) && disk == old(disk)
              else if at.value.None? then r == Err(Failed(name, None)) && disk == old(disk)
              else
                var job := Job(at.value.value, name, contents, mode, umask);
                && IsDir(old(disk), job.dir)
                && Ran(job, old(disk), luck, k).0 == disk
                && Over(Ran(job, old(disk), luck, k).1) && r == Came(Ran(job, old(disk), luck, k).1)
    {
      k := 0;
      var at := Open(path, stands, beneath);
      if at.Err? {
        return Err(at.error), k;
      }
      if at.value.None? {
        return Err(Failed(name, None)), k;
      }
      r, k := Write(Job(at.value.value, name, contents, mode, umask), luck);
    }

    /** `read`: a look by name, an opening, a look through the handle, and at most `LARGEST` bytes
        taken; any of the four may fail. */
    method Read(path: string, stands: Option<Ino>, beneath: seq<string>, name: string, luck: nat -> Option<Errno>)
      returns (r: Result<Option<seq<byte>>, Unshared>)
      ensures var at := Opened(disk, path, stands, beneath);
              if at.Err? then r == Err(at.error)
              else if at.value.None? then r == Ok(None)
              else ReadRan(disk, at.value.value, name, luck, 4) == Answered(r)
    {
      var at := Open(path, stands, beneath);
      if at.Err? {
        return Err(at.error);
      }
      if at.value.None? {
        return Ok(None);
      }
      r := ReadIn(at.value.value, name, luck);
    }

    method ReadIn(directory: Ino, name: string, luck: nat -> Option<Errno>)
      returns (r: Result<Option<seq<byte>>, Unshared>)
      ensures ReadRan(disk, directory, name, luck, 4) == Answered(r)
    {
      hide Alone, Seen, OpenedToRead, BytesOf;
      ReadFour(disk, directory, name, luck);
      var seen := Seen(disk, directory, name, luck(0));
      if seen.Err? {
        return if seen.error == NOENT then Ok(None) else Err(Failed(name, Some(seen.error)));
      }
      if !Alone(disk, seen.value) {
        return Err(Linked(name));
      }
      var file := OpenedToRead(disk, directory, name, luck(1));
      if file.Err? {
        return Err(Failed(name, Some(file.error)));
      }
      if luck(2).Some? {
        return Err(Failed(name, luck(2)));
      }
      if !Alone(disk, file.value) {
        return Err(Linked(name));
      }
      if luck(3).Some? {
        return Err(Failed(name, luck(3)));
      }
      var limit := LARGEST + 1;
      var held := BytesOf(disk, file.value);
      var bytes := if |held| > limit then held[..limit] else held;
      if |bytes| > LARGEST {
        return Err(Large(name));
      }
      r := Ok(Some(bytes));
    }
  }

  lemma ReadFour(disk: Disk, dir: Ino, name: string, luck: nat -> Option<Errno>)
    ensures var one := ReadStep(disk, dir, name, Looking, luck(0));
            var two := ReadStep(disk, dir, name, one, luck(1));
            var three := ReadStep(disk, dir, name, two, luck(2));
            ReadRan(disk, dir, name, luck, 4) == ReadStep(disk, dir, name, three, luck(3))
  {
    hide ReadStep;
    assert ReadRan(disk, dir, name, luck, 1) == ReadStep(disk, dir, name, Looking, luck(0));
    assert ReadRan(disk, dir, name, luck, 3)
           == ReadStep(disk, dir, name, ReadRan(disk, dir, name, luck, 2), luck(2));
  }
}
