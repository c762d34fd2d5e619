/** What the register promises over every run: of each start and ending, of each sweep, and of how
    much is held. */
module JobPromises {
  import opened Outcomes
  import opened Jobs
  import opened JobRuns

  function Before(events: seq<Event>): seq<Event>
    requires events != []
  {
    events[..|events| - 1]
  }

  function Last(events: seq<Event>): Event
    requires events != []
  {
    events[|events| - 1]
  }

  // ---------------------------------------------------- starts and endings

  /** The record of a start overwrites nothing: its name is not held, and its task, though it may
      already be over, has written nothing. */
  lemma StartOverwritesNothing(events: seq<Event>)
    requires Possible(events) && events != [] && Last(events) == Record
    ensures var s := State(Before(events));
            var name := s.lock.value.name;
            && name !in s.register.held
            && name in s.tasks && Alive(s.tasks[name]) && name !in s.aborted
            && name in Held(events)
            && Held(events)[name].work == Work(s.lock.value.action, Running)
            && Held(events)[name].lease == s.lock.value.lease
  {
    hide Roomy;
    var s := State(Before(events));
    RunsFit(Before(events));
    assert FitsAt(s, s.lock.value.name);
  }

  /** Nothing goes on that the register does not say is going on: a task that is alive and was not
      aborted is held as running, under its own name and action, once its start has the lock no
      more. */
  lemma NothingGoesOnUnseen(events: seq<Event>, name: string)
    requires Possible(events)
    requires Pending(State(events), name).None?
    requires name in State(events).tasks && Alive(State(events).tasks[name]) && name !in State(events).aborted
    ensures name in Held(events) && Held(events)[name].work == Work(State(events).tasks[name].action, Running)
  {
    RunsFit(events);
    assert FitsAt(State(events), name);
  }

  /** Work that runs to its end finds its own entry, still running, and what it came to is what a
      caller is told from then on. */
  lemma EndingFindsItsEntry(events: seq<Event>)
    requires Possible(events) && events != [] && Last(events).Write?
    requires Last(events).name !in State(Before(events)).aborted
    ensures var s := State(Before(events));
            var name := Last(events).name;
            && name in s.register.held && IsRunning(s.register.held[name])
            && name in Held(events)
            && Held(events)[name].work == Work(s.register.held[name].work.action, s.tasks[name].standing)
            && State(events).tasks[name] == Wrote(true)
  {
    var s := State(Before(events));
    RunsFit(Before(events));
    assert FitsAt(s, Last(events).name);
  }

  /** Running work is never dropped: whatever happens next it is held, and it stops running only by
      its own ending, by being stopped by name, or by a sweep of work leased while asked. */
  lemma RunningIsKept(events: seq<Event>, name: string)
    requires Possible(events) && events != []
    requires name in Held(Before(events)) && IsRunning(Held(Before(events))[name])
    ensures name in Held(events)
    ensures !IsRunning(Held(events)[name]) ==>
              || Last(events) == Write(name)
              || Last(events) == Stop(name)
              || (Last(events) == Sweep && LetGo(Held(Before(events))[name]))
  {
    hide Roomy;
    RunsFit(Before(events));
    var s := State(Before(events));
    assert FitsAt(s, name);
    MakingRoomKeeps(s.register.held, name);
    if Last(events) == Record {
      StartOverwritesNothing(events);
    }
  }

  predicate Settled(standing: Standing) {
    standing.Done? || standing.Failed?
  }

  /** One step changes no settled standing, and brings back no name that was let go. */
  lemma SettledStep(s: System, event: Event, name: string, work: Work)
    requires Inv(s) && Enabled(s, event)
    requires Settled(work.standing)
    requires name in s.tasks && s.tasks[name].Wrote?
    requires name in s.register.held ==> s.register.held[name].work == work
    ensures name in Next(s, event).tasks && Next(s, event).tasks[name].Wrote?
    ensures name in Next(s, event).register.held ==> Next(s, event).register.held[name].work == work
  {
    hide Roomy;
    assert FitsAt(s, name);
    MakingRoomKeeps(s.register.held, name);
  }

  /** Work that is done or has failed is settled: no later event changes what is
      held of the work, short of dropping it. */
  lemma {:induction false} SettledForGood(events: seq<Event>, more: seq<Event>, name: string)
    requires Possible(events) && Possible(events + more)
    requires name in Held(events) && Settled(Held(events)[name].work.standing)
    ensures name in State(events + more).tasks && State(events + more).tasks[name].Wrote?
    ensures name in Held(events + more) ==> Held(events + more)[name].work == Held(events)[name].work
  {
    if more == [] {
      assert events + more == events;
      RunsFit(events);
      assert FitsAt(State(events), name);
    } else {
      var all := events + more;
      assert Before(all) == events + more[..|more| - 1];
      SettledForGood(events, more[..|more| - 1], name);
      RunsFit(Before(all));
      hide Next, Enabled, Inv;
      SettledStep(State(Before(all)), Last(all), name, Held(events)[name].work);
    }
  }

  /** Work that ended on purpose is told otherwise only by its own task, which had been aborted and
      writes all the same, and then by what it came to. */
  lemma EndedUnlessLate(events: seq<Event>, name: string)
    requires Possible(events) && events != []
    requires name in Held(Before(events)) && Held(Before(events))[name].work.standing == Ended
    requires name in Held(events)
    ensures Held(events)[name].work.standing == Ended
            || (Last(events) == Write(name) && name in State(Before(events)).aborted
                && Settled(Held(events)[name].work.standing))
  {
    hide Roomy;
    var s := State(Before(events));
    RunsFit(Before(events));
    assert FitsAt(s, name);
    MakingRoomKeeps(s.register.held, name);
    if Last(events) == Record {
      StartOverwritesNothing(events);
    }
  }

  /** And there it is: whenever a task is over and has yet to say so, stopping its work answers that
      it ended, and what it came to is told after all. */
  lemma StoppedThenLate(events: seq<Event>, name: string)
    requires Possible(events) && State(events).lock.None?
    requires name in State(events).tasks && State(events).tasks[name].Finishing? && name !in State(events).aborted
    ensures Possible(events + [Stop(name)]) && Possible(events + [Stop(name), Write(name)])
    ensures name in Held(events + [Stop(name)])
    ensures Held(events + [Stop(name)])[name].work == Work(State(events).tasks[name].action, Ended)
    ensures name in Held(events + [Stop(name), Write(name)])
    ensures var task := State(events).tasks[name];
            Held(events + [Stop(name), Write(name)])[name].work == Work(task.action, task.standing)
  {
    RunsFit(events);
    assert FitsAt(State(events), name);
    var stopped := events + [Stop(name)];
    assert Before(stopped) == events;
    assert Possible(stopped);
    assert Before(events + [Stop(name), Write(name)]) == stopped;
  }

  /** From nothing, seven steps do it. */
  lemma LateEnding(name: string, action: string, lease: Lease, standing: Standing)
    requires Settled(standing)
    ensures var events := [Take(name, action, lease), Spawn, Record, Release,
                           Finish(name, standing), Stop(name), Write(name)];
            && Possible(events) && Possible(Before(events))
            && name in Held(Before(events)) && Held(Before(events))[name].work == Work(action, Ended)
            && name in Held(events) && Held(events)[name].work == Work(action, standing)
  {
    hide Roomy;
    var one := [Take(name, action, lease)];
    var two, three := one + [Spawn], one + [Spawn, Record];
    var four, five := three + [Release], three + [Release, Finish(name, standing)];
    assert Before(one) == [] && Possible(one);
    assert State(one) == START.(lock := Some(Beginning(name, action, lease, Taken)));
    assert Before(two) == one && Possible(two);
    assert State(two).tasks == map[name := Doing(action)] && State(two).aborted == {};
    assert Before(three) == two && Possible(three);
    assert Before(four) == three && Possible(four);
    assert State(four).tasks == map[name := Doing(action)] && State(four).lock == None && State(four).aborted == {};
    assert Before(five) == four && Possible(five);
    assert State(five).tasks == map[name := Finishing(action, standing)] && State(five).aborted == {};
    StoppedThenLate(five, name);
    var all := [Take(name, action, lease), Spawn, Record, Release, Finish(name, standing), Stop(name), Write(name)];
    assert all == five + [Stop(name), Write(name)];
    assert Before(all) == five + [Stop(name)];
  }

  // --------------------------------------------------------------- sweeps

  /** How many questions about `name` there were since the sweep before, its start being one. */
  function Questions(events: seq<Event>, name: string): nat
    requires Possible(events)
  {
    if events == [] then 0
    else
      var before := events[..|events| - 1];
      match events[|events| - 1]
      case Sweep => 0
      case Ask(asked) => Questions(before, name) + if asked == name && name in Held(before) then 1 else 0
      case Record => if State(before).lock.value.name == name then 1 else Questions(before, name)
      case _ => Questions(before, name)
  }

  predicate IsStartOf(s: System, event: Event, name: string) {
    event == Record && s.lock.Some? && s.lock.value.name == name
  }

  /** What one step does to the counts and the turn of an entry it leaves. */
  lemma CountsStep(s: System, event: Event, name: string)
    requires Enabled(s, event)
    requires name in Next(s, event).register.held
    ensures var now := Next(s, event).register.held[name];
            if IsStartOf(s, event, name) then now.asked == 1 && now.swept == 0 && now.begun == s.register.begun + 1
            else
              && name in s.register.held
              && var was := s.register.held[name];
                 && now.begun == was.begun
                 && now.asked == was.asked + (if event == Ask(name) then 1 else 0)
                 && now.swept == if event == Sweep then was.asked else was.swept
  {
    hide Roomy;
    MakingRoomKeeps(s.register.held, name);
  }

  /** The two counts an entry keeps differ by the questions since the last sweep. */
  lemma {:induction false} CountsAreQuestions(events: seq<Event>, name: string)
    requires Possible(events)
    requires name in Held(events)
    ensures Held(events)[name].asked == Held(events)[name].swept + Questions(events, name)
  {
    if events != [] {
      hide Next, Enabled, Roomy;
      var s := State(Before(events));
      CountsStep(s, Last(events), name);
      RecordHolds(s, Last(events));
      if !IsStartOf(s, Last(events), name) {
        CountsAreQuestions(Before(events), name);
      }
    }
  }

  lemma RecordHolds(s: System, event: Event)
    requires Enabled(s, event)
    ensures event == Record ==> s.lock.Some?
    ensures Next(s, event).register.begun == s.register.begun + if event == Record then 1 else 0
  {
  }

  /** The rule of every sweep in every run. Running work leased while asked is ended exactly when
      nobody asked about it since the sweep before; held work goes on; finished work is forgotten
      by the same count; and nothing else about any of it changes. */
  lemma SweepRule(events: seq<Event>, name: string)
    requires Possible(events) && events != [] && Last(events) == Sweep
    requires name in Held(Before(events))
    ensures var was, asked := Held(Before(events))[name], Questions(Before(events), name);
            && (IsRunning(was) && was.lease == WhileAsked ==>
                  && name in Held(events)
                  && Held(events)[name].work.action == was.work.action
                  && Held(events)[name].work.standing == if asked == 0 then Ended else Running)
            && (IsRunning(was) && was.lease == Unbounded ==>
                  name in Held(events) && Held(events)[name].work == was.work)
            && (!IsRunning(was) ==> (name in Held(events) <==> asked > 0))
            && (!IsRunning(was) && name in Held(events) ==> Held(events)[name].work == was.work)
  {
    CountsAreQuestions(Before(events), name);
  }

  /** What may end running work: its own ending, its release by name, or a sweep of work leased
      while asked that nobody asked about since the sweep before. */
  predicate Ends(before: seq<Event>, event: Event, name: string)
    requires Possible(before)
  {
    || event == Write(name)
    || event == Stop(name)
    || (event == Sweep && name in Held(before) && Held(before)[name].lease == WhileAsked
        && Questions(before, name) == 0)
  }

  /** Running work goes on being held and running over any continuation of the run in which nothing
      that may end it happens, however much is begun beside it. */
  lemma {:induction false} RunningUntilEnded(events: seq<Event>, more: seq<Event>, name: string)
    requires forall k | 0 <= k <= |more| :: Possible(events + more[..k])
    requires Possible(events)
    requires forall k | 0 <= k < |more| :: !Ends(events + more[..k], more[k], name)
    requires name in Held(events) && IsRunning(Held(events)[name])
    ensures Possible(events + more)
    ensures name in Held(events + more) && IsRunning(Held(events + more)[name])
  {
    assert more[..|more|] == more;
    if more == [] {
      assert events + more == events;
    } else {
      var init, all := more[..|more| - 1], events + more;
      assert Before(all) == events + init;
      assert forall k | 0 <= k <= |init| :: init[..k] == more[..k];
      RunningUntilEnded(events, init, name);
      hide State, IsRunning, Questions;
      RunningIsKept(all, name);
      CountsAreQuestions(Before(all), name);
      assert !Ends(events + init, more[|more| - 1], name);
    }
  }

  /** A sweep aborts the tasks of the work it ends, and no other. */
  lemma SweepAborts(events: seq<Event>, name: string)
    requires Possible(events) && events != [] && Last(events) == Sweep
    ensures name in State(events).aborted
            <==> name in State(Before(events)).aborted
                 || (name in Held(Before(events)) && IsRunning(Held(Before(events))[name])
                     && Held(Before(events))[name].lease == WhileAsked && Questions(Before(events), name) == 0)
  {
    hide SweptAborts;
    var s := State(Before(events));
    RunsFit(Before(events));
    assert FitsAt(s, name);
    SweepAbortsSelf(s, name);
    if name in s.register.held {
      CountsAreQuestions(Before(events), name);
    }
  }

  // --------------------------------------------------------------- bounds

  /** How much was running when work was last begun, that work included. */
  function RunningAtLastBegin(events: seq<Event>): nat
    requires Possible(events)
  {
    if events == [] then 0
    else if events[|events| - 1] == Record then |RunningIn(Held(events))|
    else RunningAtLastBegin(events[..|events| - 1])
  }

  /** Each begin leaves no more finished work than fits beside one. */
  lemma BeginLeavesRoom(events: seq<Event>)
    requires Possible(events) && events != [] && Last(events) == Record
    ensures |Finished(Held(events))| <= 255
    ensures |Held(events)| <= 255 + |RunningIn(Held(events))|
  {
    hide Roomy;
    var s := State(Before(events));
    var b := s.lock.value;
    MakingRoomLetsGoOldest(s.register.held);
    assert Finished(Held(events)) <= Finished(Roomy(s.register.held));
    Smaller(Finished(Held(events)), Finished(Roomy(s.register.held)));
    assert Held(events).Keys == Finished(Held(events)) + RunningIn(Held(events));
  }

  lemma Smaller<T>(a: set<T>, b: set<T>)
    requires a <= b
    ensures |a| <= |b|
  {
    if a != {} {
      var x :| x in a;
      Smaller(a - {x}, b - {x});
    }
  }

  lemma KeysShrink(s: System, event: Event)
    requires Enabled(s, event) && event != Record
    ensures Next(s, event).register.held.Keys <= s.register.held.Keys
  {
  }

  /** In every reachable state the register holds at most one less than its ceiling, and what was
      running when work was last begun. */
  lemma {:induction false} RegisterIsBounded(events: seq<Event>)
    requires Possible(events)
    ensures |Held(events)| <= 255 + RunningAtLastBegin(events)
  {
    if events != [] {
      if Last(events) == Record {
        BeginLeavesRoom(events);
      } else {
        RegisterIsBounded(Before(events));
        KeysShrink(State(Before(events)), Last(events));
        Smaller(Held(events).Keys, Held(Before(events)).Keys);
      }
    }
  }

  /** Every piece of work has a turn of its own, and none is past the count of what was begun. */
  lemma {:induction false} TurnsApart(events: seq<Event>, a: string, b: string)
    requires Possible(events)
    requires a in Held(events) && b in Held(events)
    ensures Held(events)[a].begun <= State(events).register.begun
    ensures a != b ==> Held(events)[a].begun != Held(events)[b].begun
  {
    if events != [] {
      hide Next, Enabled, Roomy;
      var s, last := State(Before(events)), Last(events);
      CountsStep(s, last, a);
      CountsStep(s, last, b);
      RecordHolds(s, last);
      if !IsStartOf(s, last, a) {
        TurnsApart(Before(events), a, if IsStartOf(s, last, b) then a else b);
      } else if !IsStartOf(s, last, b) {
        TurnsApart(Before(events), b, b);
      }
    }
  }

  /** Work let go when another begins was finished, and began before all finished work still held. */
  lemma LetGoBeganFirst(events: seq<Event>, gone: string, kept: string)
    requires Possible(events) && events != [] && Last(events) == Record
    requires gone in Held(Before(events)) && gone !in Held(events)
    requires kept in Held(events) && !IsRunning(Held(events)[kept])
    ensures !IsRunning(Held(Before(events))[gone])
    ensures kept in Held(Before(events))
    ensures Held(Before(events))[gone].begun < Held(Before(events))[kept].begun
  {
    hide Roomy;
    var held := Held(Before(events));
    MakingRoomLetsGoOldest(held);
    MakingRoomKeeps(held, gone);
    MakingRoomKeeps(held, kept);
    assert kept in Finished(Roomy(held));
    assert gone in held.Keys - Roomy(held).Keys;
    TurnsApart(Before(events), gone, kept);
  }
}
