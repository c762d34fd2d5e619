/** The job register: what is held of each piece of work, and the operations that change it. */
module Jobs {
  import opened Outcomes
  import opened Sorting

  /** How much finished work is too much: making room stops one short of this. */
  const FINISHED_AT_MOST := 256

  datatype Standing = Running | Done(outcome: string) | Failed(outcome: string, status: nat) | Ended

  /** Whether a sweep may end the work: never, or when a whole interval passed with no question. */
  datatype Lease = Unbounded | WhileAsked

  datatype Work = Work(action: string, standing: Standing)

  /** An entry of the register: the answer about its work, its lease, the task its handle would end, how often
      it was asked about and how often it had been at the last sweep, and its turn. */
  datatype Entry = Entry(work: Work, lease: Lease, ends: Option<string>, asked: nat, swept: nat, begun: nat)

  type Entries = map<string, Entry>

  datatype Register = Register(held: Entries, begun: nat)

  predicate IsRunning(entry: Entry) {
    entry.work.standing == Running
  }

  function Finished(held: Entries): set<string> {
    set name | name in held && !IsRunning(held[name])
  }

  function RunningIn(held: Entries): set<string> {
    set name | name in held && IsRunning(held[name])
  }

  // -------------------------------------------------------- making room

  /** Pieces of work in the order they began, and by name where that does not tell. */
  predicate Earlier(a: (nat, string), b: (nat, string)) {
    a.0 < b.0 || (a.0 == b.0 && Before(a.1, b.1))
  }

  lemma EarlierOrders(s: set<(nat, string)>)
    ensures Orders(Earlier, s)
  {
    var names := set p | p in s :: p.1;
    TextOrders(names);
    forall a, b | a in s && b in s && a != b
      ensures Earlier(a, b) || Earlier(b, a)
    {
      assert a.1 in names && b.1 in names;
    }
    forall a | a in s
      ensures !Earlier(a, a)
    {
      assert a.1 in names;
    }
    forall a, b, c | a in s && b in s && c in s && Earlier(a, b) && Earlier(b, c)
      ensures Earlier(a, c)
    {
      assert a.1 in names && b.1 in names && c.1 in names;
    }
  }

  /** The finished work, earliest begun first. */
  function InTurn(held: Entries): (turns: seq<(nat, string)>)
    ensures forall t :: t in turns <==> t.1 in Finished(held) && t.0 == held[t.1].begun
    ensures forall i, j | 0 <= i < j < |turns| :: Earlier(turns[i], turns[j])
  {
    var turns := set name | name in Finished(held) :: (held[name].begun, name);
    EarlierOrders(turns);
    Sorted(Earlier, turns)
  }

  /** How much finished work must be let go for one more to fit beside what is kept. */
  function Over(finished: nat): (over: nat)
    ensures over <= finished
  {
    if finished > FINISHED_AT_MOST - 1 then finished - (FINISHED_AT_MOST - 1) else 0
  }

  function Names(turns: seq<(nat, string)>): set<string> {
    set t | t in turns :: t.1
  }

  /** The entries that stay when room has been made. */
  function Roomy(held: Entries): Entries {
    held - GoneToMakeRoom(held)
  }

  lemma {:induction false} TurnsDistinct(held: Entries, turns: seq<(nat, string)>)
    requires forall t | t in turns :: t.1 in held && t.0 == held[t.1].begun
    requires forall i, j | 0 <= i < j < |turns| :: Earlier(turns[i], turns[j])
    ensures |Names(turns)| == |turns|
  {
    if turns != [] {
      var init, last := turns[..|turns| - 1], turns[|turns| - 1];
      TurnsDistinct(held, init);
      forall i | 0 <= i < |init|
        ensures init[i].1 != last.1
      {
        assert Earlier(turns[i], turns[|turns| - 1]);
        BeforeStrict(last.1);
        assert init[i] == turns[i] && init[i] in turns && last in turns;
      }
      assert last.1 !in Names(init);
      assert Names(turns) == Names(init) + {last.1} by {
        assert forall t :: t in turns <==> t in init || t == last;
      }
    }
  }

  lemma TurnsAreFinished(held: Entries)
    ensures Names(InTurn(held)) == Finished(held)
    ensures |InTurn(held)| == |Finished(held)|
  {
    var turns := InTurn(held);
    forall name | name in Finished(held)
      ensures name in Names(turns)
    {
      assert (held[name].begun, name) in turns;
    }
    assert Names(turns) == Finished(held);
    TurnsDistinct(held, turns);
  }

  /** The finished work making room lets go of. */
  function GoneToMakeRoom(held: Entries): set<string> {
    var turns := InTurn(held);
    Names(turns[..Over(|turns|)])
  }

  lemma GoneCounted(held: Entries)
    ensures GoneToMakeRoom(held) <= Finished(held)
    ensures |GoneToMakeRoom(held)| == Over(|Finished(held)|)
  {
    hide InTurn, Over, Earlier, Names;
    var turns := InTurn(held);
    TurnsAreFinished(held);
    NamesOfFirst(turns, Over(|turns|));
    TurnsDistinct(held, turns[..Over(|turns|)]);
  }

  lemma NamesOfFirst(turns: seq<(nat, string)>, n: nat)
    requires n <= |turns|
    ensures Names(turns[..n]) <= Names(turns)
    ensures forall t | t in turns[..n] :: t in turns
  {
  }

  /** Making room lets go of finished work only, of that which began first, and of no more than
      it takes. */
  lemma MakingRoomLetsGoOldest(held: Entries)
    ensures Roomy(held).Keys <= held.Keys
    ensures forall name | name in Roomy(held) :: Roomy(held)[name] == held[name]
    ensures RunningIn(Roomy(held)) == RunningIn(held)
    ensures |Finished(Roomy(held))|
            == if |Finished(held)| < 256 then |Finished(held)| else 255
    ensures forall gone, kept | gone in held.Keys - Roomy(held).Keys && kept in Finished(Roomy(held)) ::
              held[gone].begun <= held[kept].begun
  {
    hide InTurn, Earlier, Names;
    var gone := GoneToMakeRoom(held);
    GoneCounted(held);
    assert Roomy(held) == held - gone;
    assert Finished(Roomy(held)) == Finished(held) - gone;
    forall g, k | g in gone && k in Finished(held) - gone
      ensures held[g].begun <= held[k].begun
    {
      TurnsInOrder(held, g, k);
    }
  }

  lemma TurnsInOrder(held: Entries, gone: string, kept: string)
    requires gone in GoneToMakeRoom(held)
    requires kept in Finished(held) - GoneToMakeRoom(held)
    ensures gone in held && held[gone].begun <= held[kept].begun
  {
    hide InTurn, Over;
    var turns := InTurn(held);
    var over := Over(|turns|);
    var i :| 0 <= i < over && turns[..over][i].1 == gone;
    var j := TurnOf(held, kept);
    NotGone(turns, over, j);
    assert turns[i] in turns;
    assert Earlier(turns[i], turns[j]);
  }

  lemma TurnOf(held: Entries, name: string) returns (j: nat)
    requires name in Finished(held)
    ensures j < |InTurn(held)| && InTurn(held)[j] == (held[name].begun, name)
  {
    hide InTurn;
    assert (held[name].begun, name) in InTurn(held);
    j :| 0 <= j < |InTurn(held)| && InTurn(held)[j] == (held[name].begun, name);
  }

  lemma NotGone(turns: seq<(nat, string)>, over: nat, j: nat)
    requires over <= |turns| && j < |turns|
    requires turns[j].1 !in Names(turns[..over])
    ensures over <= j
  {
    assert forall k | 0 <= k < over :: turns[..over][k] == turns[k] && turns[k] in turns[..over];
  }

  // ------------------------------------------------------- one piece of work

  /** The record of a start: running, its handle held, and asked about once by starting it. */
  function Started(name: string, action: string, lease: Lease, turn: nat): Entry {
    Entry(Work(action, Running), lease, Some(name), 1, 0, turn)
  }

  /** Room made leaves one place short of too much finished work, whatever name is put in it. */
  lemma RoomLeft(held: Entries, name: string)
    ensures forall other | other in Roomy(held) :: other in held && Roomy(held)[other] == held[other]
    ensures forall other | other in held && IsRunning(held[other]) :: other in Roomy(held)
    ensures |Finished(Roomy(held) - {name})| <= 255
  {
    MakingRoomLetsGoOldest(held);
    hide Roomy;
    assert forall other | other in held && IsRunning(held[other]) :: other in RunningIn(held);
    assert Finished(Roomy(held) - {name}) == Finished(Roomy(held)) - {name};
  }

  /** What `begin` leaves: room made, the count moved on, and the start written down. */
  function Begun(register: Register, name: string, action: string, lease: Lease): Register {
    Register(Roomy(register.held)[name := Started(name, action, lease, register.begun + 1)], register.begun + 1)
  }

  /** `ended`: running work stands as ended and gives its handle up; any other is left as it is. */
  function EndedOf(entry: Entry): Entry {
    if IsRunning(entry) then entry.(work := entry.work.(standing := Ended), ends := None) else entry
  }

  /** The task ending `entry` aborts. */
  function Aborts(entry: Entry): set<string> {
    if IsRunning(entry) && entry.ends.Some? then {entry.ends.value} else {}
  }

  function Asked(held: Entries, name: string): Entries {
    if name in held then held[name := held[name].(asked := held[name].asked + 1)] else held
  }

  function Stopped(held: Entries, name: string): Entries {
    if name in held then held[name := EndedOf(held[name])] else held
  }

  function Written(held: Entries, name: string, work: Work): Entries {
    if name in held then held[name := held[name].(work := work)] else held
  }

  // --------------------------------------------------------------- sweeping

  predicate Untouched(entry: Entry) {
    entry.asked == entry.swept
  }

  /** Whether a sweep ends this: running only while asked, and not asked about since the last. */
  predicate LetGo(entry: Entry) {
    IsRunning(entry) && entry.lease == WhileAsked && Untouched(entry)
  }

  predicate Forgotten(entry: Entry) {
    !IsRunning(entry) && Untouched(entry)
  }

  function Looked(entry: Entry): Entry {
    var marked := entry.(swept := entry.asked);
    if LetGo(entry) then EndedOf(marked) else marked
  }

  function Swept(held: Entries): Entries {
    map name | name in held && !Forgotten(held[name]) :: Looked(held[name])
  }

  function SweptAborts(held: Entries): set<string> {
    set name, task | name in held && LetGo(held[name]) && task in Aborts(held[name]) :: task
  }

  // --------------------------------------------------------- the register

  /** The register as it is updated in place, each method under the lock. */
  class Jobs {
    var held: Entries
    var begun: nat

    ghost function Contents(): Register
      reads this
    {
      Register(held, begun)
    }

    constructor ()
      ensures Contents() == Register(map[], 0)
    {
      held, begun := map[], 0;
    }

    /** `making_room`: drops finished entries, earliest turn first, until few enough are left. */
    method MakingRoom()
      modifies this
      ensures held == Roomy(old(held))
      ensures begun == old(begun)
    {
      hide InTurn, Earlier;
      var finished := InTurn(held);
      var over := Over(|finished|);
      assert held - Names(finished[..0]) == held;
      for i := 0 to over
        invariant held == old(held) - Names(finished[..i])
        invariant begun == old(begun)
      {
        assert finished[..i + 1] == finished[..i] + [finished[i]];
        NamesMore(finished[..i], finished[i]);
        held := held - {finished[i].1};
      }
    }

    /** The half of `begin` that writes the start down. */
    method Begin(name: string, action: string, lease: Lease)
      modifies this
      ensures Contents() == Begun(old(Contents()), name, action, lease)
      ensures begun == old(begun) + 1
      ensures name in held && held[name] == Entry(Work(action, Running), lease, Some(name), 1, 0, begun)
      ensures forall other | other in held && other != name :: other in old(held) && held[other] == old(held[other])
      ensures forall other | other in old(held) && old(IsRunning(held[other])) :: other in held
      ensures |Finished(held - {name})| <= 255
    {
      RoomLeft(held, name);
      hide Roomy, Finished;
      ghost var was := held;
      MakingRoom();
      begun := begun + 1;
      held := held[name := Entry(Work(action, Running), lease, Some(name), 1, 0, begun)];
      assert held - {name} == Roomy(was) - {name};
    }

    /** `about`: answers with the work under `job`, if there is any, and counts the question. */
    method About(job: string) returns (work: Option<Work>)
      modifies this
      ensures Contents() == old(Contents()).(held := Asked(old(held), job))
      ensures held.Keys == old(held.Keys) && begun == old(begun)
      ensures forall name | name in held && name != job :: held[name] == old(held[name])
      ensures job !in held ==> work == None
      ensures job in held ==>
                && work == Some(old(held[job].work))
                && held[job].asked == old(held[job].asked) + 1
                && held[job].(asked := 0) == old(held[job]).(asked := 0)
    {
      if job !in held {
        return None;
      }
      var entry := held[job];
      entry := entry.(asked := entry.asked + 1);
      held := held[job := entry];
      work := Some(entry.work);
    }

    /** `stop`: running work under `job` ends and its task is aborted; answers with what is then held. */
    method Stop(job: string) returns (work: Option<Work>, aborted: set<string>)
      modifies this
      ensures Contents() == old(Contents()).(held := Stopped(old(held), job))
      ensures held.Keys == old(held.Keys) && begun == old(begun)
      ensures forall name | name in held && name != job :: held[name] == old(held[name])
      ensures job !in held ==> work == None && aborted == {}
      ensures job in held ==> work == Some(held[job].work) && !IsRunning(held[job])
      ensures job in held && old(IsRunning(held[job])) ==>
                && held[job].work == old(held[job].work).(standing := Ended) && held[job].ends == None
                && (held[job].lease, held[job].asked, held[job].swept, held[job].begun)
                     == old((held[job].lease, held[job].asked, held[job].swept, held[job].begun))
                && aborted == (if old(held[job].ends).Some? then {old(held[job].ends).value} else {})
      ensures job in held && !old(IsRunning(held[job])) ==> held[job] == old(held[job]) && aborted == {}
    {
      if job !in held {
        return None, {};
      }
      var entry;
      entry, aborted := End(held[job]);
      held := held[job := entry];
      work := Some(entry.work);
    }

    /** `ended`, and the task it aborts. */
    static method End(given: Entry) returns (entry: Entry, aborted: set<string>)
      ensures entry == EndedOf(given)
      ensures aborted == Aborts(given)
    {
      entry, aborted := given, {};
      if entry.work.standing == Running {
        if entry.ends.Some? {
          aborted := {entry.ends.value};
          entry := entry.(ends := None);
        }
        entry := entry.(work := entry.work.(standing := Ended));
      }
    }

    /** What a task does when it is over: writes where it got to, if its name is still held. */
    method Finish(job: string, action: string, standing: Standing)
      modifies this
      ensures Contents() == old(Contents()).(held := Written(old(held), job, Work(action, standing)))
      ensures held.Keys == old(held.Keys) && begun == old(begun)
      ensures forall name | name in held && name != job :: held[name] == old(held[name])
      ensures job in held ==>
                && held[job].work == Work(action, standing)
                && held[job].(work := old(held[job].work)) == old(held[job])
    {
      if job in held {
        held := held[job := held[job].(work := Work(action, standing))];
      }
    }

    /** `sweep`: looks at each entry once, in whatever order; how many running it let go. */
    method Sweep() returns (letGo: nat, aborted: set<string>)
      modifies this
      ensures Contents() == old(Contents()).(held := Swept(old(held)))
      ensures letGo == |set name | name in old(held) && LetGo(old(held)[name])|
      ensures aborted == SweptAborts(old(held))
    {
      hide Looked, Forgotten, LetGo, Aborts, LetGoIn, SweptAborts, Sweeping;
      letGo, aborted := 0, {};
      var left := held.Keys;
      SweepingEnds(held);
      while left != {}
        invariant left <= old(held).Keys
        invariant held == Sweeping(old(held), left)
        invariant begun == old(begun)
        invariant letGo == |LetGoIn(old(held) - left)|
        invariant aborted == SweptAborts(old(held) - left)
        decreases left
      {
        var name :| name in left;
        SweepingStep(old(held), left, name);
        left := left - {name};
        var kept, ended, stopped := Look(held[name]);
        held := if kept.Some? then held[name := kept.value] else held - {name};
        letGo := letGo + if ended then 1 else 0;
        aborted := aborted + stopped;
      }
      assert old(held) - {} == old(held);
      assert LetGoIn(old(held)) == set name | name in old(held) && LetGo(old(held)[name]) by {
        LetGoInMeans(old(held));
      }
    }

    /** One entry under a sweep: what is kept of it, whether it was ended, and the task aborted. */
    static method Look(given: Entry) returns (kept: Option<Entry>, ended: bool, aborted: set<string>)
      ensures kept == if Forgotten(given) then None else Some(Looked(given))
      ensures ended == LetGo(given)
      ensures aborted == if LetGo(given) then Aborts(given) else {}
    {
      var untouched := given.asked == given.swept;
      var entry := given.(swept := given.asked);
      ended, aborted := false, {};
      if entry.work.standing != Running {
        return if untouched then None else Some(entry), false, {};
      }
      if entry.lease == WhileAsked && untouched {
        entry, aborted := End(entry);
        ended := true;
      }
      kept := Some(entry);
    }
  }

  lemma NamesMore(turns: seq<(nat, string)>, t: (nat, string))
    ensures Names(turns + [t]) == Names(turns) + {t.1}
  {
    assert forall u :: u in turns + [t] <==> u in turns || u == t;
  }

  function LetGoIn(held: Entries): set<string> {
    set name | name in held && LetGo(held[name])
  }

  /** A sweep over `held` with the entries of `left` still to be looked at. */
  function Sweeping(held: Entries, left: set<string>): Entries {
    map name | name in held && (name in left || !Forgotten(held[name])) ::
      if name in left then held[name] else Looked(held[name])
  }

  lemma LetGoInMeans(held: Entries)
    ensures LetGoIn(held) == set name | name in held && LetGo(held[name])
  {
  }

  lemma SweepingEnds(held: Entries)
    ensures Sweeping(held, held.Keys) == held
    ensures Sweeping(held, {}) == Swept(held)
    ensures LetGoIn(held - held.Keys) == {} && SweptAborts(held - held.Keys) == {}
  {
    hide Looked, Forgotten, LetGo, Aborts;
  }

  lemma SweepingStep(held: Entries, left: set<string>, name: string)
    requires name in left && left <= held.Keys
    ensures name in Sweeping(held, left) && Sweeping(held, left)[name] == held[name]
    ensures Sweeping(held, left - {name})
            == if Forgotten(held[name]) then Sweeping(held, left) - {name}
               else Sweeping(held, left)[name := Looked(held[name])]
    ensures |LetGoIn(held - (left - {name}))| == |LetGoIn(held - left)| + if LetGo(held[name]) then 1 else 0
    ensures SweptAborts(held - (left - {name}))
            == SweptAborts(held - left) + if LetGo(held[name]) then Aborts(held[name]) else {}
  {
    hide Looked, Forgotten, LetGo, Aborts, SweptAborts, LetGoIn;
    var seen := held - left;
    assert held - (left - {name}) == seen[name := held[name]];
    LetGoMore(seen, name, held[name]);
    AbortsMore(seen, name, held[name]);
  }

  lemma LetGoMore(seen: Entries, name: string, entry: Entry)
    requires name !in seen
    ensures |LetGoIn(seen[name := entry])| == |LetGoIn(seen)| + if LetGo(entry) then 1 else 0
  {
    hide LetGo;
    assert LetGoIn(seen[name := entry]) == LetGoIn(seen) + if LetGo(entry) then {name} else {};
  }

  lemma AbortsMore(seen: Entries, name: string, entry: Entry)
    requires name !in seen
    ensures SweptAborts(seen[name := entry]) == SweptAborts(seen) + if LetGo(entry) then Aborts(entry) else {}
  {
    hide LetGo, Aborts;
    var more := seen[name := entry];
    forall task | task in SweptAborts(seen)
      ensures task in SweptAborts(more)
    {
      var n :| n in seen && LetGo(seen[n]) && task in Aborts(seen[n]);
      assert n in more && more[n] == seen[n];
    }
    forall task | LetGo(entry) && task in Aborts(entry)
      ensures task in SweptAborts(more)
    {
      assert name in more && more[name] == entry;
    }
  }
}
