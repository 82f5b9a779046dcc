/** In every reachable state the list, the queues and the database file describe the same history. */
module HistoryRuns {
  import opened Calendar
  import opened Collections
  import opened HistoryDb
  import opened HistoryUi
  import opened HistorySync
  import opened HistoryProtocol
  import opened HistoryConsistency
  import opened HistoryLoading

  /** The file that a switch opens. */
  function Opens(w: World, edit: Edit): Db {
    var s := Settled(w);
    if edit.SwitchTo? then FileOf(Closed(s.disk, s.current), DatabaseName(edit.path)) else EMPTY_DB
  }

  ghost predicate HarmlessNow(w: World, edit: Edit) {
    Harmless(w.ui, Incoming(w), edit, Opens(w, edit))
  }

  // ---- Edits ----

  lemma EditPath(ui: Ui, edit: Edit)
    requires !edit.SwitchTo?
    ensures Edited(ui, edit).phase == ui.phase && Edited(ui, edit).path == ui.path
  {
  }

  lemma EditIncoming(w: World, edit: Edit)
    requires Wired(w) && w.stage == Running && !edit.SwitchTo?
    ensures
      var w' := Next(w, Act(edit));
      Wired(w') && Incoming(w') == Incoming(w) && ArrivedUi(w') == Early(w.ui, Incoming(w), edit) &&
      OnlyOperations(PostedBy(w.ui, edit)) && Settled(w') == After(Settled(w), PostedBy(w.ui, edit))
  {
    EditPosts(w.ui, edit);
    StepIsWriteThrough(w, Act(edit));
    AfterAppend(Abstract(w.worker), w.ui.posted, PostedBy(w.ui, edit));
    AfterOperations(Settled(w), PostedBy(w.ui, edit));
    assert Incoming(Next(w, Act(edit))) == Incoming(w);
  }

  lemma EditSettles(w: World, edit: Edit)
    requires Wired(w) && w.stage == Running && !edit.SwitchTo?
    requires Settled(w).current.Some? && Settled(w).current.value in Settled(w).disk
    ensures
      var s, s' := Settled(w), Settled(Next(w, Act(edit)));
      s' == s.(disk := s.disk[s.current.value := FileAfter(w.ui, edit, s.disk[s.current.value])])
  {
    EditIncoming(w, edit);
    OnlyCurrentChanges(Settled(w), PostedBy(w.ui, edit));
  }

  lemma SwitchSettles(w: World, path: string)
    requires Wired(w) && w.stage == Running && path != w.ui.path
    ensures
      var w' := Next(w, Act(SwitchTo(path)));
      && Wired(w')
      && Settled(w') == Through(Settled(w), ResetDatabase(DatabaseName(path)))
      && Incoming(w') == Incoming(w) + FetchEvents(Opens(w, SwitchTo(path)))
  {
    var s, name, switch := Abstract(w.worker), DatabaseName(path), PostedBy(w.ui, SwitchTo(path));
    EditPosts(w.ui, SwitchTo(path));
    StepIsWriteThrough(w, Act(SwitchTo(path)));
    AfterAppend(s, w.ui.posted, switch);
    SwitchStore(Settled(w), name);
    assert Through(Settled(w), ResetDatabase(name)).disk[name] == Opens(w, SwitchTo(path));
    SignalsJoin(w.worker.posted, SignalsAfter(s, w.ui.posted), FetchEvents(Opens(w, SwitchTo(path))));
  }

  /** What signals of an earlier fetch, delivered into the emptied list, do to the fetch that follows. */
  lemma LateSignals(ui: Ui, events: seq<UiEvent>, file: Db)
    requires ui.entries == [] && ui.hiddenEntries == {} && GoodRows(file.history)
    ensures InStep(ReceivedAll(ui, events + FetchEvents(file)), file) <==> BringsNothing(events, file)
  {
    var mid := ReceivedAll(ui, events);
    ReceivedAllAppend(ui, events, FetchEvents(file));
    ArrivalsAppend(ui, events);
    ArrivalsExist({}, events);
    HiddenBrought({}, events);
    if mid.entries == [] {
      FetchInStep(mid, file);
      assert forall url :: url in mid.hiddenEntries <==> HiddenFetched(url) in events;
    } else if InStep(ReceivedAll(mid, FetchEvents(file)), file) {
      FetchedOntoRows(mid, file);
    }
  }

  /** A fetch onto rows already listed never ends in step. */
  lemma FetchedOntoRows(ui: Ui, file: Db)
    requires ui.entries != [] && GoodRows(file.history)
    ensures !InStep(ReceivedAll(ui, FetchEvents(file)), file)
  {
    ArrivalsAppend(ui, FetchEvents(file));
    ArrivalsAppend(ui.(entries := []), FetchEvents(file));
    FetchArrives(ui.(entries := []), file);
    PermutedElements(SortByVisit(file.history), file.history);
    if InStep(ReceivedAll(ui, FetchEvents(file)), file) {
      InStepLength(ReceivedAll(ui, FetchEvents(file)), file);
    }
  }

  lemma OpenedRows(w: World, path: string)
    requires GoodDisk(Settled(w).disk)
    ensures GoodRows(Opens(w, SwitchTo(path)).history)
    ensures GoodDisk(Through(Settled(w), ResetDatabase(DatabaseName(path))).disk)
  {
  }

  lemma SwitchExactly(w: World, path: string)
    requires Wired(w) && GoodDisk(Settled(w).disk) && w.stage == Running && path != w.ui.path
    ensures SettledInStep(Next(w, Act(SwitchTo(path)))) <==> HarmlessNow(w, SwitchTo(path))
  {
    var file := Opens(w, SwitchTo(path));
    SwitchStands(w, path);
    OpenedRows(w, path);
    LateSignals(PathSet(w.ui, path), Incoming(w), file);
    assert HarmlessNow(w, SwitchTo(path)) == Harmless(w.ui, Incoming(w), SwitchTo(path), file);
  }

  /** After a switch everything turns on what the signals leave in the emptied list. */
  lemma SwitchStands(w: World, path: string)
    requires Wired(w) && w.stage == Running && path != w.ui.path
    ensures
      var file := Opens(w, SwitchTo(path));
      SettledInStep(Next(w, Act(SwitchTo(path))))
        == InStep(ReceivedAll(PathSet(w.ui, path), Incoming(w) + FetchEvents(file)), file)
  {
    SwitchSettles(w, path);
    var w' := Next(w, Act(SwitchTo(path)));
    assert w'.ui == PathSet(w.ui, path);
    assert Settled(w').disk[DatabaseName(path)] == Opens(w, SwitchTo(path));
  }

  /** In any consistent state, whatever is on its way: after an edit or a switch the file will hold what the list
      will hold, once everything has arrived, exactly when the edit is harmless. */
  lemma EditWhileArriving(w: World, edit: Edit)
    requires Consistent(w) && w.stage == Running && w.ui.phase != NoDatabase
    ensures SettledInStep(Next(w, Act(edit))) <==> HarmlessNow(w, edit)
  {
    if !edit.SwitchTo? {
      var s := Settled(w);
      EditSettles(w, edit);
      EditIncoming(w, edit);
      EditPath(w.ui, edit);
      EarlyEdit(w.ui, Incoming(w), edit, s.disk[s.current.value]);
      HarmlessIgnoresFile(w.ui, Incoming(w), edit, s.disk[s.current.value], Opens(w, edit));
    } else if edit.path != w.ui.path {
      SwitchExactly(w, edit.path);
    }
  }

  lemma HarmlessIgnoresFile(ui: Ui, events: seq<UiEvent>, edit: Edit, a: Db, b: Db)
    requires !edit.SwitchTo?
    ensures Harmless(ui, events, edit, a) == Harmless(ui, events, edit, b)
  {
  }

  // ---- Steps ----

  ghost predicate Allowed(w: World, step: Step) {
    Possible(w, step) && (step.Act? ==> w.ui.phase == NoDatabase || HarmlessNow(w, step.edit))
  }

  lemma {:induction false} NothingStored(s: Store, events: seq<WorkerEvent>)
    requires OnlyOperations(events) && s.current == None
    ensures After(s, events) == s
    decreases |events|
  {
    if events != [] {
      NothingStored(s, events[1..]);
    }
  }

  lemma EditConsistent(w: World, edit: Edit)
    requires Consistent(w) && Allowed(w, Act(edit)) && !edit.SwitchTo?
    ensures Consistent(Next(w, Act(edit)))
  {
    EditIncoming(w, edit);
    EditPath(w.ui, edit);
    if w.ui.phase == NoDatabase {
      EditPosts(w.ui, edit);
      NothingStored(Settled(w), PostedBy(w.ui, edit));
    } else {
      EditSettles(w, edit);
      EditWhileArriving(w, edit);
    }
  }

  lemma SwitchConsistent(w: World, path: string)
    requires Consistent(w) && Allowed(w, Act(SwitchTo(path)))
    ensures Consistent(Next(w, Act(SwitchTo(path))))
  {
    if path != w.ui.path {
      SwitchSettles(w, path);
      OpenedRows(w, path);
      SwitchExactly(w, path);
      if w.ui.phase == NoDatabase {
        NothingIncoming(w);
      }
    }
  }

  lemma QuietConsistent(w: World, step: Step)
    requires Consistent(w) && Possible(w, step) && IsQuiet(step)
    ensures Consistent(Next(w, step))
  {
    if w.ui.phase == NoDatabase {
      QuietNoPath(w, step);
    } else {
      QuietInStep(w, step);
    }
  }

  lemma QuietInStep(w: World, step: Step)
    requires Wired(w) && Possible(w, step) && IsQuiet(step) && SettledInStep(w)
    ensures
      var w' := Next(w, step);
      Wired(w') && SettledInStep(w') && Settled(w') == Settled(w) && w'.stage != Ended &&
      (w.ui.phase != NoDatabase ==> w'.ui.phase != NoDatabase)
  {
    var w' := Next(w, step);
    StepIsWriteThrough(w, step);
    QuietStep(w, step);
    SameListInStep(ArrivedUi(w), ArrivedUi(w'), Settled(w).disk[Settled(w).current.value]);
  }

  lemma QuietNoPath(w: World, step: Step)
    requires Wired(w) && Possible(w, step) && IsQuiet(step) && NoPathYet(w)
    ensures
      var w' := Next(w, step);
      Wired(w') && NoPathYet(w') && Settled(w') == Settled(w) && w'.stage != Ended &&
      w'.ui == w.ui.(posted := w'.ui.posted)
  {
    StepIsWriteThrough(w, step);
  }

  /** With only operations posted, what the queues hold can be replayed on the file at once. */
  lemma RecoveredIsSettled(w: World)
    requires w.stage != Ended && Consistent(w) && w.ui.phase != NoDatabase && OnlyOperations(w.ui.posted)
    ensures w.worker.current == Some(DatabaseName(w.ui.path))
    ensures InStep(ReceivedAll(w.ui, w.worker.posted), Recovered(w))
  {
    AfterOperations(Abstract(w.worker), w.ui.posted);
    ApplyAllAppend(FileOf(w.worker.disk, DatabaseName(w.ui.path)), w.worker.pending, Operations(w.ui.posted));
    assert Incoming(w) == w.worker.posted;
  }

  /** The destructor flushes what was taken: replaying what is still posted needs no queue any more. */
  lemma EndRecovers(w: World)
    requires Possible(w, WorkerEnds) && OnlyOperations(w.ui.posted) && IsFile(w.ui.path)
    requires w.worker.current == Some(w.ui.path)
    ensures
      var w' := Next(w, WorkerEnds);
      w.ui.path in w'.worker.disk && w'.ui == w.ui && w'.worker.posted == w.worker.posted &&
      Recovered(w') == Recovered(w)
  {
    var db, ops := FileOf(w.worker.disk, w.ui.path), Operations(w.ui.posted);
    ApplyAllAppend(db, w.worker.pending, ops);
    assert [] + ops == ops;
  }

  lemma EndConsistent(w: World)
    requires Consistent(w) && Possible(w, WorkerEnds)
    ensures Consistent(Next(w, WorkerEnds))
  {
    if w.ui.phase != NoDatabase && OnlyOperations(w.ui.posted) && IsFile(w.ui.path) {
      RecoveredIsSettled(w);
      EndRecovers(w);
    }
  }

  lemma StepConsistent(w: World, step: Step)
    requires Consistent(w) && Allowed(w, step)
    ensures Consistent(Next(w, step))
  {
    match step
    case Act(edit) =>
      if edit.SwitchTo? {
        SwitchConsistent(w, edit.path);
      } else {
        EditConsistent(w, edit);
      }
    case WorkerEnds => EndConsistent(w);
    case _ => QuietConsistent(w, step);
  }

  // ---- Runs ----

  ghost predicate AllowedRun(w: World, steps: seq<Step>)
    decreases |steps|
  {
    steps == [] || (Allowed(w, steps[0]) && AllowedRun(Next(w, steps[0]), steps[1..]))
  }

  ghost function EndOf(w: World, steps: seq<Step>): World
    requires AllowedRun(w, steps)
    decreases |steps|
  {
    if steps == [] then w else EndOf(Next(w, steps[0]), steps[1..])
  }

  lemma {:induction false} RunConsistent(w: World, steps: seq<Step>)
    requires Consistent(w) && AllowedRun(w, steps)
    ensures Consistent(EndOf(w, steps))
    decreases |steps|
  {
    if steps != [] {
      StepConsistent(w, steps[0]);
      RunConsistent(Next(w, steps[0]), steps[1..]);
    }
  }

  /** Over every run of harmless edits: until the worker has ended, the list that will be there when all signals have
      arrived is in step with the file that will be there when all operations have run. As soon as no switch or fetch
      is waiting for the worker, also after its end and with a fetch on its way to the list, the file with the queued
      and then the posted operations applied gives exactly the list and exactly the hidden urls that the signals sent
      so far lead to; after the end the operations still posted are those lost. */
  lemma ListAlwaysRecoverable(utcOffset: int, disk: map<string, Db>, steps: seq<Step>)
    requires GoodDisk(disk) && AllowedRun(Start(utcOffset, disk), steps)
    ensures
      var w := EndOf(Start(utcOffset, disk), steps);
      w.ui.phase != NoDatabase ==>
        && (w.stage != Ended ==> SettledInStep(w))
        && (w.stage != Ended && OnlyOperations(w.ui.posted) ==> w.worker.current == Some(DatabaseName(w.ui.path)))
        && (OnlyOperations(w.ui.posted) && (w.stage == Ended ==> IsFile(w.ui.path)) ==>
              InStep(ReceivedAll(w.ui, w.worker.posted), Recovered(w)))
  {
    RunConsistent(Start(utcOffset, disk), steps);
    var w := EndOf(Start(utcOffset, disk), steps);
    if w.ui.phase != NoDatabase && OnlyOperations(w.ui.posted) && w.stage != Ended {
      RecoveredIsSettled(w);
    }
  }

  // ---- Clients that wait for loaded() ----

  /** Edits follow the loaded() signal and a switch does not overtake a fetch. The computed domain is never empty, and
      the one day whose first second has no time_t is not removed. */
  predicate Waits(ui: Ui, edit: Edit) {
    match edit
    case SwitchTo(_) => ui.phase != Fetching
    case Visit(_, _, _, domain, _) => ui.phase == Ready && domain != ""
    case ForgetDay(Day(day)) => ui.phase == Ready && !StraddlesEpoch(day, ui.utcOffset)
    case _ => ui.phase == Ready
  }

  ghost predicate WaitingRun(w: World, steps: seq<Step>)
    decreases |steps|
  {
    steps == [] ||
    (Possible(w, steps[0]) && (steps[0].Act? ==> Waits(w.ui, steps[0].edit)) &&
     WaitingRun(Next(w, steps[0]), steps[1..]))
  }

  ghost predicate LoadedLast(events: seq<UiEvent>) {
    && events != [] && events[|events| - 1] == Loaded
    && forall i :: 0 <= i < |events| - 1 ==> events[i] != Loaded
  }

  ghost predicate FetchLast(events: seq<WorkerEvent>) {
    && events != [] && events[|events| - 1] == FetchEntries
    && forall i :: 0 <= i < |events| - 1 ==> events[i] != FetchEntries
  }

  /** What each phase then means for the events in flight. */
  ghost predicate PhaseHolds(w: World) {
    match w.ui.phase
    case NoDatabase => AllArrived(w) && w.ui.posted == []
    case Fetching =>
      if w.ui.posted == [] then LoadedLast(w.worker.posted)
      else w.worker.posted == [] && FetchLast(w.ui.posted)
    case Ready => AllArrived(w)
  }

  lemma SignalsOfFetch(s: Store, events: seq<WorkerEvent>)
    requires FetchLast(events)
    ensures |events| > 1 ==> !events[0].FetchEntries? && Signals(s, events[0]) == [] && FetchLast(events[1..])
    ensures LoadedLast(Signals(s, FetchEntries))
  {
    if |events| > 1 {
      assert events[0] != FetchEntries;
    }
  }

  lemma WaitingTakes(w: World)
    requires Wired(w) && PhaseHolds(w) && Possible(w, WorkerTakes)
    ensures PhaseHolds(Next(w, WorkerTakes))
  {
    HandledRefines(w.worker, w.ui.posted[0]);
    if w.ui.phase == Fetching {
      SignalsOfFetch(Abstract(w.worker), w.ui.posted);
    }
  }

  lemma WaitingEdit(w: World, edit: Edit)
    requires PhaseHolds(w) && w.stage == Running && Waits(w.ui, edit)
    ensures PhaseHolds(Next(w, Act(edit)))
  {
    if !edit.SwitchTo? {
      EditPosts(w.ui, edit);
      EditPath(w.ui, edit);
    } else if edit.path != w.ui.path {
      var posted := PathSet(w.ui, edit.path).posted;
      assert posted[|posted| - 1] == FetchEntries;
    }
  }

  lemma WaitingStep(w: World, step: Step)
    requires Wired(w) && PhaseHolds(w) && Possible(w, step) && (step.Act? ==> Waits(w.ui, step.edit))
    ensures PhaseHolds(Next(w, step))
  {
    match step
    case Act(edit) => WaitingEdit(w, edit);
    case WorkerTakes => WaitingTakes(w);
    case _ =>
  }

  /** With nothing on its way, waiting edits are harmless. */
  lemma WaitingIsHarmless(w: World, edit: Edit)
    requires PhaseHolds(w) && Waits(w.ui, edit) && w.ui.phase != NoDatabase
    ensures HarmlessNow(w, edit)
  {
    NothingIncoming(w);
  }

  lemma {:induction false} WaitingRunAllowed(w: World, steps: seq<Step>)
    requires Consistent(w) && w.stage != Ended && PhaseHolds(w) && WaitingRun(w, steps)
    ensures AllowedRun(w, steps) && PhaseHolds(EndOf(w, steps))
    decreases |steps|
  {
    if steps != [] {
      var step, w' := steps[0], Next(w, steps[0]);
      if step.Act? && w.ui.phase != NoDatabase {
        WaitingIsHarmless(w, step.edit);
      }
      StepConsistent(w, step);
      WaitingStep(w, step);
      if w'.stage == Ended {
        assert steps[1..] == [];
      } else {
        WaitingRunAllowed(w', steps[1..]);
      }
    }
  }

  /** Waiting for loaded() is enough: over every run of clients that wait, a loaded list is the file with the queued
      and the posted operations applied. */
  lemma WaitingIsEnough(utcOffset: int, disk: map<string, Db>, steps: seq<Step>)
    requires GoodDisk(disk) && WaitingRun(Start(utcOffset, disk), steps)
    ensures AllowedRun(Start(utcOffset, disk), steps)
    ensures
      var w := EndOf(Start(utcOffset, disk), steps);
      w.ui.phase == Ready ==>
        && AllArrived(w)
        && (w.stage != Ended ==> w.worker.current == Some(DatabaseName(w.ui.path)))
        && ((w.stage == Ended ==> IsFile(w.ui.path)) ==> InStep(w.ui, Recovered(w)))
  {
    WaitingRunAllowed(Start(utcOffset, disk), steps);
    ListAlwaysRecoverable(utcOffset, disk, steps);
  }

  // ---- Switching too early ----

  /** A concrete run: a switch overtakes a fetch, and the row of the old file ends up in the list of the new one. */
  lemma SwitchTooEarly()
    ensures
      var row := Row("u", "d", "t", "i", 3, 7);
      var w := Start(0, map["a" := Db([row], [])]);
      var steps := [Act(SwitchTo("a")), WorkerTakes, WorkerTakes]
        + ([Act(SwitchTo("b")), UiTakes("d"), UiTakes("d")] + [WorkerTakes, WorkerTakes, UiTakes("d")]);
      && IsRun(w, steps) && End(w, steps).ui.phase == Ready && End(w, steps).ui.path == "b"
      && End(w, steps).ui.entries == [EntryOf(row, false, "d")] && FileOf(End(w, steps).worker.disk, "b") == EMPTY_DB
  {
    var row := Row("u", "d", "t", "i", 3, 7);
    var w := Start(0, map["a" := Db([row], [])]);
    var fetch, second, third := UiTakes("d"), Act(SwitchTo("b")), [WorkerTakes, WorkerTakes, UiTakes("d")];
    FirstFileFetched(w, row);
    AfterFirstFile(Next3(w, Act(SwitchTo("a")), WorkerTakes, WorkerTakes), row);
    RunSteps(w, Act(SwitchTo("a")), WorkerTakes, WorkerTakes, [second, fetch, fetch] + third);
  }

  lemma AfterFirstFile(w: World, row: Row)
    requires w == World(Ui(0, "a", Fetching, [], {}, []),
                    Worker(Some("a"), map["a" := Db([row], [])], [], false, [EntryFetched(row), Loaded]), Running)
    ensures
      var steps := [Act(SwitchTo("b")), UiTakes("d"), UiTakes("d")] + [WorkerTakes, WorkerTakes, UiTakes("d")];
      && IsRun(w, steps) && End(w, steps).ui == Ui(0, "b", Ready, [EntryOf(row, false, "d")], {}, [])
      && FileOf(End(w, steps).worker.disk, "b") == EMPTY_DB
  {
    var fetch, third := UiTakes("d"), [WorkerTakes, WorkerTakes, UiTakes("d")];
    OldRowArrives(w, row);
    var w3 := Next3(w, Act(SwitchTo("b")), fetch, fetch);
    NewFileFetched(w3, row);
    var w6 := Next3(w3, WorkerTakes, WorkerTakes, fetch);
    assert IsRun(w6, []) && End(w6, []) == w6 && third + [] == third;
    RunSteps(w3, WorkerTakes, WorkerTakes, fetch, []);
    RunSteps(w, Act(SwitchTo("b")), fetch, fetch, third);
  }

  lemma FirstFileFetched(w: World, row: Row)
    requires w == Start(0, map["a" := Db([row], [])])
    ensures
      var first := Act(SwitchTo("a"));
      && Possible(Next(w, first), WorkerTakes) && Possible(Next(Next(w, first), WorkerTakes), WorkerTakes)
      && Next3(w, first, WorkerTakes, WorkerTakes)
           == World(Ui(0, "a", Fetching, [], {}, []),
                Worker(Some("a"), map["a" := Db([row], [])], [], false, [EntryFetched(row), Loaded]), Running)
  {
    var w1 := Next(w, Act(SwitchTo("a")));
    assert w1.ui.posted == [ResetDatabase("a"), FetchEntries];
    assert w1.ui.posted[1..] == [FetchEntries];
    OneRowFetched(row);
  }

  /** The signals of the old file arrive after the switch. */
  lemma OldRowArrives(w: World, row: Row)
    requires w == World(Ui(0, "a", Fetching, [], {}, []),
                    Worker(Some("a"), map["a" := Db([row], [])], [], false, [EntryFetched(row), Loaded]), Running)
    ensures
      var second := Act(SwitchTo("b"));
      && Possible(Next(w, second), UiTakes("d")) && Possible(Next(Next(w, second), UiTakes("d")), UiTakes("d"))
      && Next3(w, second, UiTakes("d"), UiTakes("d"))
           == World(Ui(0, "b", Ready, [EntryOf(row, false, "d")], {}, [ResetDatabase("b"), FetchEntries]),
                Worker(Some("a"), map["a" := Db([row], [])], [], false, []), Running)
  {
    var w1 := Next(w, Act(SwitchTo("b")));
    assert w1.ui.posted == [ResetDatabase("b"), FetchEntries];
    assert w1.worker.posted[1..] == [Loaded];
  }

  /** Then the worker opens and fetches the new file. */
  lemma NewFileFetched(w: World, row: Row)
    requires w == World(Ui(0, "b", Ready, [EntryOf(row, false, "d")], {}, [ResetDatabase("b"), FetchEntries]),
                    Worker(Some("a"), map["a" := Db([row], [])], [], false, []), Running)
    ensures
      && Possible(Next(w, WorkerTakes), WorkerTakes)
      && Possible(Next(Next(w, WorkerTakes), WorkerTakes), UiTakes("d"))
    ensures
      var w' := Next3(w, WorkerTakes, WorkerTakes, UiTakes("d"));
      && w'.ui == Ui(0, "b", Ready, [EntryOf(row, false, "d")], {}, [])
      && FileOf(w'.worker.disk, "b") == EMPTY_DB
  {
    var w1 := Next(w, WorkerTakes);
    assert w1.ui.posted == [FetchEntries] && w1.worker.disk["b"] == EMPTY_DB;
    assert FetchEvents(EMPTY_DB) == [Loaded];
    assert Next(w1, WorkerTakes).worker.posted == [Loaded];
  }
}
