/** Every interleaving of starting work, its endings, questions, releases and sweeps over the one
    lock the register is behind. */
module JobRuns {
  import opened Outcomes
  import opened Jobs

  // -------------------------------------------------------------- steps

  /** How far a start holding the lock has got. */
  datatype Phase = Taken | Spawned | Recorded

  datatype Beginning = Beginning(name: string, action: string, lease: Lease, phase: Phase)

  /** A task: at its work; over, with its standing still to be written; or written, having found
      its entry or not; or dropped where it was aborted. */
  datatype Task =
    | Doing(action: string)
    | Finishing(action: string, standing: Standing)
    | Wrote(found: bool)
    | Dropped

  predicate Alive(task: Task) {
    task.Doing? || task.Finishing?
  }

  datatype System = System(register: Register, lock: Option<Beginning>, tasks: map<string, Task>, aborted: set<string>)

  datatype Event =
    | Take(name: string, action: string, lease: Lease)
    | Spawn
    | Record
    | Release
    | Finish(name: string, standing: Standing)
    | Write(name: string)
    | Drop(name: string)
    | Ask(name: string)
    | Stop(name: string)
    | Sweep

  const START := System(Register(map[], 0), None, map[], {})

  predicate InPhase(s: System, phase: Phase) {
    s.lock.Some? && s.lock.value.phase == phase
  }

  /** A name is minted once. A task is dropped only after it was aborted, and at a moment it waits:
      for its work, or for the lock. Everything but the work itself waits for the lock. */
  predicate Enabled(s: System, event: Event) {
    match event
    case Take(name, _, _) => s.lock.None? && name !in s.tasks
    case Spawn => InPhase(s, Taken)
    case Record => InPhase(s, Spawned)
    case Release => InPhase(s, Recorded)
    case Finish(name, standing) => name in s.tasks && s.tasks[name].Doing? && standing != Running
    case Write(name) => s.lock.None? && name in s.tasks && s.tasks[name].Finishing?
    case Drop(name) => name in s.tasks && name in s.aborted && Alive(s.tasks[name])
    case Ask(_) => s.lock.None?
    case Stop(_) => s.lock.None?
    case Sweep => s.lock.None?
  }

  function WithHeld(s: System, held: Entries): System {
    s.(register := s.register.(held := held))
  }

  function Next(s: System, event: Event): System
    requires Enabled(s, event)
  {
    match event
    case Take(name, action, lease) => s.(lock := Some(Beginning(name, action, lease, Taken)))
    case Spawn =>
      var b := s.lock.value;
      s.(lock := Some(b.(phase := Spawned)), tasks := s.tasks[b.name := Doing(b.action)])
    case Record =>
      var b := s.lock.value;
      s.(lock := Some(b.(phase := Recorded)), register := Begun(s.register, b.name, b.action, b.lease))
    case Release => s.(lock := None)
    case Finish(name, standing) => s.(tasks := s.tasks[name := Finishing(s.tasks[name].action, standing)])
    case Write(name) =>
      var task := s.tasks[name];
      WithHeld(s, Written(s.register.held, name, Work(task.action, task.standing)))
        .(tasks := s.tasks[name := Wrote(name in s.register.held)])
    case Drop(name) => s.(tasks := s.tasks[name := Dropped])
    case Ask(name) => WithHeld(s, Asked(s.register.held, name))
    case Stop(name) =>
      var held := s.register.held;
      WithHeld(s, Stopped(held, name)).(aborted := s.aborted + if name in held then Aborts(held[name]) else {})
    case Sweep =>
      WithHeld(s, Swept(s.register.held)).(aborted := s.aborted + SweptAborts(s.register.held))
  }

  // --------------------------------------------------------------- runs

  /** Whether each of `events` can happen after those before it. */
  predicate Possible(events: seq<Event>)
    decreases |events|, 0
  {
    events == []
    || (Possible(events[..|events| - 1]) && Enabled(State(events[..|events| - 1]), events[|events| - 1]))
  }

  function State(events: seq<Event>): System
    requires Possible(events)
    decreases |events|, 1
  {
    if events == [] then START else Next(State(events[..|events| - 1]), events[|events| - 1])
  }

  function Held(events: seq<Event>): Entries
    requires Possible(events)
  {
    State(events).register.held
  }

  // ---------------------------------------------------------- the invariant

  function At<T>(m: map<string, T>, name: string): Option<T> {
    if name in m then Some(m[name]) else None
  }

  /** The start of `name` that holds the lock, if it is the one that does. */
  function Pending(s: System, name: string): Option<Beginning> {
    if s.lock.Some? && s.lock.value.name == name then s.lock else None
  }

  ghost predicate TaskFits(task: Task) {
    task.Finishing? ==> task.standing != Running
  }

  /** What a name's task, entry and aborting may be while its start holds the lock, and after. */
  ghost predicate Fits(name: string, task: Option<Task>, entry: Option<Entry>, aborted: bool,
                       pending: Option<Beginning>)
  {
    if pending.Some? && pending.value.phase == Taken then task.None? && entry.None? && !aborted
    else if pending.Some? && pending.value.phase == Spawned then
      && task.Some? && Alive(task.value) && task.value.action == pending.value.action && TaskFits(task.value)
      && entry.None? && !aborted
    else
      && (pending.Some? ==> entry.Some?)
      && (task.None? ==> entry.None? && !aborted)
      && (task.Some? && Alive(task.value) && !aborted ==> entry.Some? && Underway(name, task.value, entry.value))
      && (task.Some? && (task.value == Wrote(false) || task.value == Dropped) ==> aborted)
      && (task.Some? ==> TaskFits(task.value))
      && (entry.Some? ==> EntryFits(name, task, entry.value, aborted))
  }

  /** The entry of work that is going on and was not aborted. */
  ghost predicate Underway(name: string, task: Task, entry: Entry)
    requires Alive(task)
  {
    IsRunning(entry) && entry.ends == Some(name) && entry.work.action == task.action
  }

  ghost predicate EntryFits(name: string, task: Option<Task>, entry: Entry, aborted: bool) {
    && (IsRunning(entry) ==> task.Some? && Alive(task.value) && !aborted)
    && (entry.work.standing.Done? || entry.work.standing.Failed? ==> task.Some? && task.value.Wrote?)
    && (entry.ends.Some? ==> entry.ends.value == name)
  }

  ghost predicate FitsAt(s: System, name: string) {
    Fits(name, At(s.tasks, name), At(s.register.held, name), name in s.aborted, Pending(s, name))
  }

  ghost predicate Inv(s: System) {
    forall name: string :: FitsAt(s, name)
  }

  lemma SweepAbortsSelf(s: System, name: string)
    requires Inv(s)
    ensures name in SweptAborts(s.register.held)
            <==> name in s.register.held && LetGo(s.register.held[name]) && s.register.held[name].ends == Some(name)
  {
    var held := s.register.held;
    if n :| n in held && LetGo(held[n]) && name in Aborts(held[n]) {
      assert FitsAt(s, n);
    }
    if name in held && LetGo(held[name]) && held[name].ends == Some(name) {
      assert name in Aborts(held[name]);
    }
  }

  // ----------------------------------------------------- each step keeps it

  lemma TakeKeeps(s: System, event: Event, name: string)
    requires Inv(s) && Enabled(s, event)
    requires event.Take? || event.Spawn? || event.Release?
    ensures FitsAt(Next(s, event), name)
  {
    assert FitsAt(s, name);
    if s.lock.Some? {
      assert FitsAt(s, s.lock.value.name);
    }
  }

  lemma RecordKeeps(s: System, name: string)
    requires Inv(s) && Enabled(s, Record)
    ensures FitsAt(Next(s, Record), name)
  {
    hide Roomy;
    assert FitsAt(s, name);
    MakingRoomLetsGoOldest(s.register.held);
    MakingRoomKeeps(s.register.held, name);
  }

  lemma MakingRoomKeeps(held: Entries, name: string)
    ensures name in held && IsRunning(held[name]) ==> name in Roomy(held)
    ensures name in Roomy(held) ==> name in held && Roomy(held)[name] == held[name]
  {
    hide Roomy;
    MakingRoomLetsGoOldest(held);
    assert name in RunningIn(held) <==> name in held && IsRunning(held[name]);
    assert name in RunningIn(Roomy(held)) ==> name in Roomy(held);
  }

  lemma TaskKeeps(s: System, event: Event, name: string)
    requires Inv(s) && Enabled(s, event)
    requires event.Finish? || event.Write? || event.Drop?
    ensures FitsAt(Next(s, event), name)
  {
    assert FitsAt(s, name);
  }

  lemma AskKeeps(s: System, event: Event, name: string)
    requires Inv(s) && Enabled(s, event)
    requires event.Ask? || event.Stop?
    ensures FitsAt(Next(s, event), name)
  {
    assert FitsAt(s, name);
    assert FitsAt(s, event.name);
  }

  lemma SweepKeeps(s: System, name: string)
    requires Inv(s) && Enabled(s, Sweep)
    ensures FitsAt(Next(s, Sweep), name)
  {
    hide SweptAborts;
    assert FitsAt(s, name);
    SweepAbortsSelf(s, name);
  }

  lemma StepKeeps(s: System, event: Event)
    requires Inv(s) && Enabled(s, event)
    ensures Inv(Next(s, event))
  {
    hide *;
    forall name: string
      ensures FitsAt(Next(s, event), name)
    {
      match event {
        case Record => RecordKeeps(s, name);
        case Sweep => SweepKeeps(s, name);
        case Ask(_) => AskKeeps(s, event, name);
        case Stop(_) => AskKeeps(s, event, name);
        case Take(_, _, _) => TakeKeeps(s, event, name);
        case Spawn => TakeKeeps(s, event, name);
        case Release => TakeKeeps(s, event, name);
        case _ => TaskKeeps(s, event, name);
      }
    }
    InvMeans(Next(s, event));
  }

  lemma InvMeans(s: System)
    requires forall name: string :: FitsAt(s, name)
    ensures Inv(s)
  {
    hide FitsAt;
  }

  /** Every reachable state fits, in every interleaving. */
  lemma {:induction false} RunsFit(events: seq<Event>)
    requires Possible(events)
    ensures Inv(State(events))
  {
    if events != [] {
      RunsFit(events[..|events| - 1]);
      StepKeeps(State(events[..|events| - 1]), events[|events| - 1]);
    }
  }
}
