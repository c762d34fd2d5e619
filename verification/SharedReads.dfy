/** A read with another process at work on the same disk between any two of its steps. */
module SharedReads {
  import opened Outcomes
  import opened Disks
  import opened SharedFiles

  /** The reader's own step, which may fail; or anything at all another process did. */
  datatype Event = Own(fault: Option<Errno>) | Other(disk: Disk)

  /** The disk and the reader after `events`. */
  function At(dir: Ino, name: string, found: Disk, events: seq<Event>): (Disk, Reader) {
    if events == [] then (found, Looking)
    else
      var (disk, reader) := At(dir, name, found, events[..|events| - 1]);
      match events[|events| - 1]
      case Own(fault) => (disk, ReadStep(disk, dir, name, reader, fault))
      case Other(after) => (after, reader)
  }

  /** The inode a read has open, once it has. */
  function Open(reader: Reader): Option<Ino> {
    match reader
    case LookingAgain(ino) => Some(ino)
    case Taking(ino) => Some(ino)
    case _ => None
  }

  lemma {:induction false} TakingSeen(dir: Ino, name: string, found: Disk, events: seq<Event>) returns (k: nat)
    requires At(dir, name, found, events).1.Taking?
    ensures k < |events|
    ensures Alone(At(dir, name, found, events[..k]).0, At(dir, name, found, events).1.ino)
  {
    hide Alone, Seen, OpenedToRead, BytesOf;
    var before := events[..|events| - 1];
    if At(dir, name, found, before).1.Taking? {
      k := TakingSeen(dir, name, found, before);
      assert events[..k] == before[..k];
    } else {
      k := |events| - 1;
    }
  }

  /** In every interleaving: bytes a read answers with are all the bytes, at one moment, of a file
      that was seen through the handle, at an earlier one, to be plain and to have no other name. */
  lemma {:induction false} AnswersOfOneSeen(dir: Ino, name: string, found: Disk, events: seq<Event>)
    returns (ino: Ino, seen: nat, taken: nat)
    requires var reader := At(dir, name, found, events).1;
             reader.Answered? && reader.answer.Ok? && reader.answer.value.Some?
    ensures seen < taken < |events|
    ensures Alone(At(dir, name, found, events[..seen]).0, ino)
    ensures var bytes := At(dir, name, found, events).1.answer.value.value;
            bytes == BytesOf(At(dir, name, found, events[..taken]).0, ino) && |bytes| <= LARGEST
  {
    hide Alone, Seen, OpenedToRead, BytesOf;
    var before := events[..|events| - 1];
    var reader := At(dir, name, found, before).1;
    if reader.Answered? {
      ino, seen, taken := AnswersOfOneSeen(dir, name, found, before);
      assert events[..seen] == before[..seen] && events[..taken] == before[..taken];
    } else {
      assert reader.Taking?;
      ino, taken := reader.ino, |events| - 1;
      seen := TakingSeen(dir, name, found, before);
      assert events[..seen] == before[..seen];
    }
  }

  /** With nothing else at work and no call failing, a read answers with what the name holds. */
  lemma QuietReadAnswers(disk: Disk, dir: Ino, name: string, luck: nat -> Option<Errno>)
    requires IsDir(disk, dir)
    requires forall i: nat :: luck(i).None?
    ensures ReadRan(disk, dir, name, luck, 4) == Answered(ReadOf(disk, dir, name))
  {
    hide NamesOf;
    ReadFour(disk, dir, name, luck);
    assert luck(0).None? && luck(1).None? && luck(2).None? && luck(3).None?;
  }
}
